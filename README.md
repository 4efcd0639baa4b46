# patchwork, modelled in Dafny

patchwork applies one patch to many GitHub repositories as a batch. For each
repository, the patch is applied into a fresh clone, committed on a shared
branch and pushed. The tool then waits until CircleCI has a completed build
of every pushed commit. If every build succeeded, it opens a pull request
per repository and merges it. If any build failed, it prints the failures and
aborts before opening anything.

This project models the sequential decision logic inside that orchestration,
with every external reply given as a parameter:

- `Patchwork` (patchwork.dfy, modelling patchwork.go):
  - how a poller recognises the build of its pushed commit in a list of
    build summaries, and what it records;
  - the poller's loop over the replies it gets;
  - how the main routine ends up with the results list;
  - the all-or-nothing gate over the results;
  - the create-then-merge pull-request plan;
  - the pushed commit id trimmed from `git rev-parse HEAD`.
- `LocalPatches` (internal.dfy, modelling internal.go, `applyPatchesLocally`):
  - the batch's patch id, and the branch name and fallback commit message
    derived from it;
  - the per-repository sequence of git commands, up to the first failure;
  - the commit-message fallback and its quoting;
  - one emitted commit per repository, in order.
- `LineRewrite`, `ExampleScript`, `TestScript` (line_rewrite.dfy,
  example_main.dfy, test_main.dfy, modelling example/main.go and
  test/main.go):
  - the patch callbacks' rewrite of the CI configuration: split on newlines,
    overwrite each line in place with its first occurrence of a pattern
    replaced, join again;
  - the test script's options, whose message and branch share a random
    suffix.
- `GoStrings` and `Strconv` model the parts of Go's `strings` and `strconv`
  packages that these call: `Replace` with count 1, `Split`/`Join` on one
  character, `Trim` and `Itoa`. `Index` locates the occurrence `Replace`
  swaps, and `Contains` is used only to state what `Replace` does.
- `Wrappers` holds `Option` and `Result`.

A `log.Fatal` ends the process. It is modelled as a result that names where
the run stopped: `Fatal`, `Exited`, `PollerExit`, `CIFailureAbort`,
`PlanAborted`, or a `Failure(step)`.

Points of the code's behaviour that the model keeps as they are:

- The code has no backoff, no bound on poll attempts and no timeout. A poller
  fetches forever, with a fixed one-minute sleep before each fetch.
- Nothing isolates a failing repository: every error is `log.Fatal`.
- Every pull request targets `"master"`.
- patchwork.go commits with the message as given. internal.go wraps it in
  literal double quotes.
- The summary a poller records is the first summary of the reply, not the
  one whose commit matched. `Patchwork.RecordedSummaryMayBeAnotherBuild`
  exhibits this.

## Model

| member | source | states |
|---|---|---|
| Patchwork.ScanSummaries | patchwork.go:92-106 | A reply's scan records something exactly when some summary's first commit detail is the pushed sha, summaries without commit details never match, and what it records is the reply's first summary |
| Patchwork.Poll | patchwork.go:75-112 | The poller records at the first reply holding the build, exits at the first transport error before that, skips empty and unmatched replies, and otherwise is still polling |
| Patchwork.PolledRecordsIffMatched | patchwork.go:75-112 | A poller records a build if and only if some reply holds the build before any error, and exits if and only if an error comes first |
| Patchwork.FirstStopUnique | patchwork.go:83-110 | A first matching reply and a first transport error cannot both be where the poller stops |
| Patchwork.PolledUnique | patchwork.go:75-112 | The same replies always give the same poll outcome |
| Patchwork.RecordedSummaryMayBeAnotherBuild | patchwork.go:98-101 | A reply whose first summary is a failed build of another commit and whose second is the pushed commit's build makes the poller record the failed one |
| Patchwork.Collect | patchwork.go:67-117 | The results are released only when every poller recorded, with one result per poller in order; otherwise it names the first poller that exited, or says the wait never ends |
| Patchwork.FailedIndicesEnumerate | patchwork.go:160-161 | The failed indices are exactly the positions of the results whose outcome is not "success", in increasing order |
| Patchwork.FailureLinesInOrder | patchwork.go:160-164 | There is one printed line per failed result, and the k-th line is "repo owner/name failed to build" for the k-th failed result |
| Patchwork.FailureLinesExact | patchwork.go:159-165 | The gate prints nothing if and only if every build succeeded, prints "repo owner/name failed to build" for every failed result, and prints no other line |
| Patchwork.Gate | patchwork.go:159-165 | The flag stays true if and only if every result's outcome is "success"; the printed lines are the failure lines in order |
| Patchwork.RunPlanCompletes | patchwork.go:171-188 | The plan runs to the end if and only if every create and merge reply is good; it then makes exactly two calls per result |
| Patchwork.RunPlanStopsAtFirstBadReply | patchwork.go:177-187 | At the first bad reply the plan aborts, after 2k+1 calls if the create failed and after 2k+2 if the merge failed or was not merged |
| Patchwork.RunPlanCallsInOrder | patchwork.go:171-188 | Call 2k is the create for result k, and call 2k+1 is the merge of the pull request that create returned |
| Patchwork.PlanCallsUseBatchBranch | patchwork.go:172-181 | Every pull request has the batch message as its title, the batch branch as its head and "master" as its base; every merge uses the batch message |
| Patchwork.ExecutePlan | patchwork.go:171-188 | The loop makes exactly the calls of the plan and aborts exactly when the plan does |
| Patchwork.FinishBatch | patchwork.go:159-188 | The printed lines are the failure lines; the run aborts at the gate if and only if some build failed, and then makes no hosting call; otherwise it runs the plan |
| Patchwork.PushedSha | patchwork.go:150 | The sha is a contiguous slice of the rev-parse output; everything outside it is newline or space, and it neither starts nor ends with either |
| Patchwork.PollAll | patchwork.go:69-113 | There is one poller per pushed repository, each polling for the sha trimmed from that repository's rev-parse output |
| Patchwork.CollectedFromReplies | patchwork.go:67-117 | The results are released if and only if every poller finds its build; each result is the first summary of the reply where its build first appeared |
| Patchwork.CollectedExitsOnError | patchwork.go:80-85 | The run exits on a poller's error if and only if some poller meets a transport error before its build; the poller it names is one of those |
| Patchwork.Apply | patchwork.go:60-189 | The run reaches the gate if and only if every repository's build is found; then the results match the replies, failure lines are printed, no call is made after a failure, and the plan otherwise runs; a transport error before some repository's build ends the run with a poller exit, and an exit names a repository whose poller hit one |
| LocalPatches.NewPatchIdentity | internal.go:41-43 | The branch is "patch-" + id and the generic message is "Applying patch " + id, for one decimal id that spells the draw |
| LocalPatches.DistinctDrawsDistinctBranches | internal.go:41-42 | Two different draws never give the same branch |
| LocalPatches.CommitMessage | internal.go:69-72 | The message is the callback's when non-empty, else the generic one; it is non-empty whenever the generic message is |
| LocalPatches.Quoted | internal.go:76 | The argument to "git commit -m" is the message with one double quote added on each side |
| LocalPatches.FailedStep | internal.go:48-78 | No step fails if and only if the temporary directory, every git command, the change of directory and the callback all succeed; otherwise the step named failed and every step before it in the loop body succeeded |
| LocalPatches.PublishRepo | internal.go:46-80 | A repository is published if and only if no step fails, else it stops at the first failing step; the commands run are clone, checkout -b, add, commit, push, rev-parse up to and including the failing step's command (none without a directory, clone and checkout when the change of directory or the callback fails), all six on success; the commit's sha is the trimmed rev-parse output |
| LocalPatches.PublishedCommitMessage | internal.go:69-76 | A published repository was committed with the quoted callback message, or the quoted generic message when the callback gave none |
| LocalPatches.PublishedOnBatchBranch | internal.go:56-77 | A published repository was checked out and pushed on the batch's branch |
| LocalPatches.ApplyPatchesLocally | internal.go:35-85 | At most one commit per repository, in input order; a run without a fatal step emits one per repository; each emitted commit is its repository published on the batch's branch with the generic message as fallback; a fatal step is where the next repository failed |
| GoStrings.Index | example/main.go:34 | The index is -1 if and only if the pattern does not occur, and is otherwise its leftmost occurrence |
| GoStrings.ReplaceFirstSpec | example/main.go:34 | Without an occurrence the line is unchanged; otherwise the text before and after the first occurrence is kept and only that occurrence is replaced |
| GoStrings.Split | example/main.go:32 | Splitting gives at least one piece, and no piece holds the separator |
| GoStrings.JoinSplit | example/main.go:32-36 | Joining the pieces of a split gives back the text |
| GoStrings.SplitJoin | example/main.go:32-36 | Splitting a join of separator-free pieces gives back those pieces |
| GoStrings.Trim | patchwork.go:150 | The trimmed text is the unique slice that has only cutset characters outside it and neither starts nor ends with one |
| GoStrings.TrimmedSliceUnique | internal.go:78 | Any two slices that satisfy the trim condition hold the same text |
| GoStrings.TrimIdempotent | internal.go:78 | Trimming trimmed output changes nothing |
| Strconv.Itoa | internal.go:41 | The spelling is non-empty and decimal, and starts with '0' only for zero |
| Strconv.DecimalValueOfItoa | internal.go:41 | Reading back the decimal spelling gives the number |
| Strconv.ItoaInjective | internal.go:41-42 | Different numbers get different spellings |
| Strconv.ItoaLength | test/main.go:23 | A number below 10^k is spelled with at most k digits |
| LineRewrite.RewriteEachLine | example/main.go:33-35 | A line without the pattern is kept; in a line with it, only the first occurrence is replaced and the text before and after it is kept |
| LineRewrite.ReplaceInEachLine | example/main.go:33-35 | Overwriting each array element in place yields exactly the lines with their first occurrences replaced |
| LineRewrite.RewriteLines | example/main.go:32-36 | The output is the rewritten lines joined with newlines |
| LineRewrite.RewriteKeepsLines | example/main.go:32-36 | When the replacement has no newline, the output splits into exactly the rewritten lines, so the line count is kept |
| LineRewrite.RewriteWithoutMatchIsIdentity | example/main.go:32-36 | When no line holds the pattern, the output equals the input |
| ExampleScript.PatchCircleConfig | example/main.go:32-36 | The output has the input's line count; a line without "make test" is unchanged; in other lines only the first "make test" becomes "make test-sauce"; with no match anywhere the output is the input |
| TestScript.PatchCircleConfig | test/main.go:39-43 | The output has the input's line count; a line without "testing" is unchanged; in other lines only the first "testing" becomes "testing success"; with no match anywhere the output is the input |
| TestScript.TestOptions | test/main.go:22-30 | The message is "Testing Patchwork!" + n and the branch is "test" + n for the same n; n has one to four decimal digits and spells the draw, which is below 4000; the one repository is segmentio/patchwork-test |

## Left out

- Subprocesses: `run` in patchwork.go and exec.go, and `execCommand` in internal.go, are modelled only by their results. A command gives an `Exec` reply (success flag and output), and a failure is fatal.
- Hosting and CI clients: `Repositories.Get`, `PullRequests.Create`, `PullRequests.Merge` and `RecentBuildsForProjectBranch` become reply parameters (`Response`, `CreateReply`, `MergeReply`). `Repositories.Get` is called only in the local phase of patchwork.go, which is left out (see below). internal.go receives its repositories as input, modelled as `RemoteRepository`, reduced to the clone URL.
- Concurrency: goroutines, channels, the wait group and the results mutex are not modelled.
  - Results are appended in repository order, which is one possible completion order.
  - When several pollers hit errors, `Collect` names the lowest-numbered one; in the process, whichever fails first ends it.
  - The buffered channel of internal.go is the returned sequence, and its deferred close is a run without a fatal step.
- Polling forever: a poller is modelled over the finite list of replies it gets. `Waiting` means it has not stopped yet; `Blocked`/`StillPolling` means the run has not ended.
- The one-minute sleep, `ioutil.TempDir` naming, `os.Remove`, `os.Chdir` and `os.Getenv` are left out. The temporary directory and the change of directory are replies, and the directory's name prefix is not modelled.
- Randomness: `rand.Int` and `rand.Intn(4000)` are a `draw` parameter. `TestOptions` requires the draw to be below 4000, as `rand.Intn(4000)` guarantees.
- The local phase of `Apply` in patchwork.go (patchwork.go:119-148) is not modelled: the repository lookup, temporary directory, clone, checkout, change of directory, patch callback, add, commit and push. Only the trimmed `git rev-parse HEAD` output enters the model, as `revParse`. The same sequence is modelled for internal.go in `LocalPatches`.
- Logging: `logf`, log.go and the `Debug` flag are left out.
- The file read and write of the example callbacks are left out. The model starts from the file's text and ends at the text written back.
- The example script's options in example/main.go are left out; they are plain configuration.
- Strings are sequences of characters, not UTF-8 bytes. `Split` and `Join` are modelled only for the one-character separator `"\n"` the source uses.
- Patchwork.Collect: when more than one poller exits, it names the lowest-numbered one instead of whichever fails first in time, because completion order is not modelled.
