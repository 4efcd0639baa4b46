/**
 * The decision logic of `Patchwork.Apply` (patchwork.go): how a CI poller
 * recognises the build of the pushed commit, how the recorded builds are
 * collected, the all-or-nothing gate over them, and the create-then-merge
 * pull-request plan that runs when every build succeeded.  Replies of the
 * CI provider and of the hosting API are parameters; `log.Fatal` ends the run.
 */
module Patchwork {
  import opened Wrappers
  import GoStrings

  datatype Repository = Repository(owner: string, repo: string)

  datatype ApplyOptions = ApplyOptions(message: string, branch: string, repos: seq<Repository>)

  datatype CommitDetail = CommitDetail(commit: string)

  /** A completed build as the CI provider reports it. */
  datatype BuildSummary = BuildSummary(
    outcome: string,
    username: string,
    reponame: string,
    commitDetails: seq<CommitDetail>)

  /** One reply to "recent completed builds of this branch": the summaries, or a transport error. */
  datatype Response = Builds(summaries: seq<BuildSummary>) | FetchError

  /** How one poller ended after `attempts` fetches, or that it is still polling. */
  datatype PollOutcome = Recorded(summary: BuildSummary, attempts: nat) | Fatal(attempts: nat) | Waiting

  /** The base branch every pull request targets. */
  const BaseBranch: string := "master"

  /** The outcome string of a passing build. */
  const SuccessOutcome: string := "success"

  // ---------------------------------------------------------------------
  // Polling

  /** A summary is the build of `sha` when its first commit detail is `sha`. */
  predicate IsBuildOf(summary: BuildSummary, sha: string) {
    |summary.commitDetails| > 0 && summary.commitDetails[0].commit == sha
  }

  /** Some summary of one reply is the build of `sha`. */
  ghost predicate AttemptMatches(summaries: seq<BuildSummary>, sha: string) {
    exists i :: 0 <= i < |summaries| && IsBuildOf(summaries[i], sha)
  }

  /**
   * One scan of a reply's summaries: stop at the first summary that is the
   * build of `sha`, and record the reply's FIRST summary (not necessarily the
   * one that matched).  Summaries without commit details are skipped.
   */
  method ScanSummaries(summaries: seq<BuildSummary>, sha: string) returns (recorded: Option<BuildSummary>)
    ensures recorded.Some? <==> AttemptMatches(summaries, sha)
    ensures recorded.Some? ==> recorded.value == summaries[0]
  {
    recorded := None;
    for i := 0 to |summaries|
      invariant recorded == None
      invariant forall k :: 0 <= k < i ==> !IsBuildOf(summaries[k], sha)
    {
      if |summaries[i].commitDetails| == 0 {
        continue;
      }
      if summaries[i].commitDetails[0].commit == sha {
        recorded := Some(summaries[0]);
        break;
      }
    }
  }

  /** The first `n` replies were all build lists without the build of `sha`. */
  ghost predicate Unmatched(responses: seq<Response>, sha: string, n: int) {
    && 0 <= n <= |responses|
    && forall k :: 0 <= k < n ==> responses[k].Builds? && !AttemptMatches(responses[k].summaries, sha)
  }

  /** Reply `j` is the first that holds the build of `sha`, and none before it failed. */
  ghost predicate FirstMatchAt(responses: seq<Response>, sha: string, j: int) {
    0 <= j < |responses| && Unmatched(responses, sha, j)
    && responses[j].Builds? && AttemptMatches(responses[j].summaries, sha)
  }

  /** Reply `j` is a transport error and no earlier reply held the build of `sha`. */
  ghost predicate FirstFetchErrorAt(responses: seq<Response>, sha: string, j: int) {
    0 <= j < |responses| && Unmatched(responses, sha, j) && responses[j].FetchError?
  }

  /**
   * What a poller does with the replies it gets: it records the first
   * summary of the first reply that holds the build of `sha` and stops; it
   * exits on the first transport error; otherwise it keeps polling.
   */
  ghost predicate Polled(responses: seq<Response>, sha: string, outcome: PollOutcome) {
    match outcome
    case Recorded(summary, attempts) =>
      FirstMatchAt(responses, sha, attempts - 1) && summary == responses[attempts - 1].summaries[0]
    case Fatal(attempts) => FirstFetchErrorAt(responses, sha, attempts - 1)
    case Waiting => Unmatched(responses, sha, |responses|)
  }

  /**
   * One poller for the pushed commit `sha`, over the replies its successive
   * fetches get.  The one-minute sleep before each fetch is not modelled.
   */
  method Poll(responses: seq<Response>, sha: string) returns (outcome: PollOutcome)
    ensures Polled(responses, sha, outcome)
  {
    var attempt := 0;
    while attempt < |responses|
      invariant Unmatched(responses, sha, attempt)
    {
      var response := responses[attempt];
      attempt := attempt + 1;
      if response.FetchError? {
        return Fatal(attempt);
      }
      if |response.summaries| == 0 {
        continue;
      }
      var recorded := ScanSummaries(response.summaries, sha);
      if recorded.Some? {
        return Recorded(recorded.value, attempt);
      }
    }
    return Waiting;
  }

  /** A poller records a build exactly when some reply holds the build of `sha` before any transport error. */
  lemma PolledRecordsIffMatched(responses: seq<Response>, sha: string, outcome: PollOutcome)
    requires Polled(responses, sha, outcome)
    ensures outcome.Recorded? <==> exists j :: FirstMatchAt(responses, sha, j)
    ensures outcome.Fatal? <==> exists j :: FirstFetchErrorAt(responses, sha, j)
  {
    match outcome
    case Recorded(_, attempts) =>
      forall j | 0 <= j < |responses| ensures !FirstFetchErrorAt(responses, sha, j) {
        FirstStopUnique(responses, sha, attempts - 1, j);
      }
    case Fatal(attempts) =>
      forall j | 0 <= j < |responses| ensures !FirstMatchAt(responses, sha, j) {
        FirstStopUnique(responses, sha, j, attempts - 1);
      }
    case Waiting =>
  }

  /** A reply that holds the build of `sha` and a transport error cannot both come first. */
  lemma FirstStopUnique(responses: seq<Response>, sha: string, m: int, f: int)
    requires 0 <= m < |responses| && 0 <= f < |responses|
    ensures !(FirstMatchAt(responses, sha, m) && FirstFetchErrorAt(responses, sha, f))
  {
    if FirstMatchAt(responses, sha, m) && f <= m {
      assert responses[f].Builds?;
    }
  }

  /** The same replies always lead a poller to the same outcome. */
  lemma PolledUnique(responses: seq<Response>, sha: string, o1: PollOutcome, o2: PollOutcome)
    requires Polled(responses, sha, o1) && Polled(responses, sha, o2)
    ensures o1 == o2
  {
    PolledRecordsIffMatched(responses, sha, o1);
    PolledRecordsIffMatched(responses, sha, o2);
  }

  /** The recorded summary can be that of another commit: the poller records the reply's first summary. */
  lemma RecordedSummaryMayBeAnotherBuild()
    ensures
      var failedOther := BuildSummary("failed", "acme", "widgets", [CommitDetail("b")]);
      var passedOwn := BuildSummary(SuccessOutcome, "acme", "widgets", [CommitDetail("a")]);
      Polled([Builds([failedOther, passedOwn])], "a", Recorded(failedOther, 1))
  {
    var failedOther := BuildSummary("failed", "acme", "widgets", [CommitDetail("b")]);
    var passedOwn := BuildSummary(SuccessOutcome, "acme", "widgets", [CommitDetail("a")]);
    assert IsBuildOf([failedOther, passedOwn][1], "a");
  }

  // ---------------------------------------------------------------------
  // Collecting the pollers' results

  /** What the main goroutine sees once the pollers are done, or that it never gets past the wait. */
  datatype Collected = Released(results: seq<BuildSummary>) | Exited(poller: nat) | Blocked

  /**
   * The results list once every poller has ended: a poller that hit a
   * transport error ends the process; a poller still polling keeps the wait
   * group from ever releasing; otherwise there is one recorded summary per
   * poller.  The pollers are given in the order their results are appended.
   */
  function Collect(polls: seq<PollOutcome>): (c: Collected)
    ensures c.Released? <==> forall i :: 0 <= i < |polls| ==> polls[i].Recorded?
    ensures c.Released? ==> |c.results| == |polls|
    ensures c.Released? ==> forall i :: 0 <= i < |polls| ==> c.results[i] == polls[i].summary
    ensures c.Exited? ==> c.poller < |polls| && polls[c.poller].Fatal?
    ensures c.Exited? ==> forall i :: 0 <= i < c.poller ==> !polls[i].Fatal?
    ensures c.Blocked? ==> forall i :: 0 <= i < |polls| ==> !polls[i].Fatal?
    ensures c.Blocked? ==> exists i :: 0 <= i < |polls| && polls[i].Waiting?
  {
    if |polls| == 0 then Released([])
    else
      var rest := Collect(polls[1..]);
      match polls[0]
      case Fatal(_) => Exited(0)
      case Waiting => if rest.Exited? then Exited(rest.poller + 1) else Blocked
      case Recorded(summary, _) =>
        match rest
        case Released(results) => Released([summary] + results)
        case Exited(p) => Exited(p + 1)
        case Blocked => Blocked
  }

  // ---------------------------------------------------------------------
  // The gate

  predicate Succeeded(result: BuildSummary) {
    result.outcome == SuccessOutcome
  }

  predicate AllSucceeded(results: seq<BuildSummary>) {
    forall i :: 0 <= i < |results| ==> Succeeded(results[i])
  }

  /** The line printed for a result whose build did not succeed. */
  function FailureLine(result: BuildSummary): string {
    "repo " + result.username + "/" + result.reponame + " failed to build\n"
  }

  /** The lines printed by the gate, one per failed result, in order. */
  function FailureLines(results: seq<BuildSummary>): seq<string> {
    if |results| == 0 then []
    else
      var last := results[|results| - 1];
      FailureLines(results[..|results| - 1]) + (if Succeeded(last) then [] else [FailureLine(last)])
  }

  /**
   * The gate prints nothing exactly when every build succeeded, prints a line
   * for every failed result, and prints no line that is not such a result's.
   */
  lemma {:induction false} FailureLinesExact(results: seq<BuildSummary>)
    ensures |FailureLines(results)| <= |results|
    ensures |FailureLines(results)| == 0 <==> AllSucceeded(results)
    ensures forall i :: 0 <= i < |results| && !Succeeded(results[i]) ==> FailureLine(results[i]) in FailureLines(results)
    ensures forall l :: l in FailureLines(results) ==>
              exists i :: 0 <= i < |results| && !Succeeded(results[i]) && l == FailureLine(results[i])
  {
    if |results| > 0 {
      var front := results[..|results| - 1];
      FailureLinesExact(front);
      assert forall i :: 0 <= i < |front| ==> front[i] == results[i];
    }
  }

  /** The indices of the results whose build did not succeed. */
  ghost function FailedIndices(results: seq<BuildSummary>): seq<int> {
    if |results| == 0 then []
    else
      FailedIndices(results[..|results| - 1]) + (if Succeeded(results[|results| - 1]) then [] else [|results| - 1])
  }

  /** FailedIndices lists every failed result, and only those, in increasing order. */
  lemma {:induction false} FailedIndicesEnumerate(results: seq<BuildSummary>)
    ensures forall k :: 0 <= k < |FailedIndices(results)| ==>
      0 <= FailedIndices(results)[k] < |results| && !Succeeded(results[FailedIndices(results)[k]])
    ensures forall k, l :: 0 <= k < l < |FailedIndices(results)| ==> FailedIndices(results)[k] < FailedIndices(results)[l]
    ensures forall i :: 0 <= i < |results| && !Succeeded(results[i]) ==> i in FailedIndices(results)
  {
    if |results| > 0 {
      var n := |results| - 1;
      var front := results[..n];
      FailedIndicesEnumerate(front);
      var earlier := FailedIndices(front);
      var last: seq<int> := if Succeeded(results[n]) then [] else [n];
      assert FailedIndices(results) == earlier + last;
      forall k | 0 <= k < |earlier| ensures earlier[k] < n && results[earlier[k]] == front[earlier[k]] {
      }
      forall i | 0 <= i < |results| && !Succeeded(results[i]) ensures i in earlier + last {
        if i < n {
          assert front[i] == results[i];
        }
      }
    }
  }

  /** The k-th printed line is the line of the k-th failed result. */
  lemma {:induction false} FailureLinesInOrder(results: seq<BuildSummary>)
    ensures |FailureLines(results)| == |FailedIndices(results)|
    ensures forall k :: 0 <= k < |FailedIndices(results)| ==>
      0 <= FailedIndices(results)[k] < |results| &&
      FailureLines(results)[k] == FailureLine(results[FailedIndices(results)[k]])
  {
    if |results| > 0 {
      var front := results[..|results| - 1];
      FailureLinesInOrder(front);
      FailedIndicesEnumerate(front);
      assert forall i :: 0 <= i < |front| ==> front[i] == results[i];
    }
  }

  /** The gate loop: `success` stays true only if every result succeeded; each failure is printed. */
  method Gate(results: seq<BuildSummary>) returns (success: bool, lines: seq<string>)
    ensures success <==> AllSucceeded(results)
    ensures lines == FailureLines(results)
  {
    success := true;
    lines := [];
    for i := 0 to |results|
      invariant success <==> AllSucceeded(results[..i])
      invariant lines == FailureLines(results[..i])
    {
      assert results[..i + 1][..i] == results[..i];
      if results[i].outcome != SuccessOutcome {
        success := false;
        lines := lines + [FailureLine(results[i])];
      }
    }
    assert results[..|results|] == results;
  }

  // ---------------------------------------------------------------------
  // The pull-request plan

  /** A call on the hosting API. */
  datatype Call =
    | CreatePullRequest(owner: string, repo: string, title: string, head: string, base: string)
    | MergePullRequest(owner: string, repo: string, number: int, message: string)

  datatype CreateReply = Created(number: int) | CreateError

  datatype MergeReply = MergeReplied(merged: bool) | MergeError

  /** The calls made, and whether a failed reply ended the run. */
  datatype PlanRun = PlanRun(calls: seq<Call>, aborted: bool)

  function CreateCall(result: BuildSummary, message: string, branch: string): Call {
    CreatePullRequest(result.username, result.reponame, message, branch, BaseBranch)
  }

  function MergeCall(result: BuildSummary, number: int, message: string): Call {
    MergePullRequest(result.username, result.reponame, number, message)
  }

  /** The pull request was created and then reported merged. */
  predicate ReplyOk(create: CreateReply, merge: MergeReply) {
    create.Created? && merge == MergeReplied(true)
  }

  /** The plan's calls with `prefix` in front; whether it aborted is the plan's. */
  function Then(prefix: seq<Call>, run: PlanRun): PlanRun {
    PlanRun(prefix + run.calls, run.aborted)
  }

  /** The create call, and the merge call when the create succeeded, for one result. */
  function PlanStep(result: BuildSummary, message: string, branch: string, create: CreateReply, merge: MergeReply): PlanRun {
    match create
    case CreateError => PlanRun([CreateCall(result, message, branch)], true)
    case Created(number) =>
      PlanRun([CreateCall(result, message, branch), MergeCall(result, number, message)], merge != MergeReplied(true))
  }

  /** Call `k` of the plan: the create call for result k/2 when k is even, its merge when k is odd. */
  ghost predicate PlannedCallAt(results: seq<BuildSummary>, message: string, branch: string,
                                creates: seq<CreateReply>, k: int, call: Call)
    requires |creates| == |results|
  {
    0 <= k && k / 2 < |results| &&
    if k % 2 == 0 then call == CreateCall(results[k / 2], message, branch)
    else creates[k / 2].Created? && call == MergeCall(results[k / 2], creates[k / 2].number, message)
  }

  /** Reply `k` is the first bad one. */
  ghost predicate FirstBadReply(creates: seq<CreateReply>, merges: seq<MergeReply>, k: int)
    requires |creates| == |merges|
  {
    0 <= k < |creates| && !ReplyOk(creates[k], merges[k])
    && forall j :: 0 <= j < k ==> ReplyOk(creates[j], merges[j])
  }

  /**
   * The calls made for the results in order, given the replies the hosting
   * API gives: for each result a create then a merge, stopping after the
   * first failed create, failed merge or merge reported as not merged.
   */
  function RunPlan(results: seq<BuildSummary>, message: string, branch: string,
                   creates: seq<CreateReply>, merges: seq<MergeReply>): PlanRun
    requires |creates| == |results| && |merges| == |results|
    decreases |results|
  {
    if |results| == 0 then PlanRun([], false)
    else
      var step := PlanStep(results[0], message, branch, creates[0], merges[0]);
      if step.aborted then step
      else Then(step.calls, RunPlan(results[1..], message, branch, creates[1..], merges[1..]))
  }

  /** The plan runs to the end exactly when every create and merge reply is good; it then makes two calls per result. */
  lemma {:induction false} RunPlanCompletes(results: seq<BuildSummary>, message: string, branch: string,
                                            creates: seq<CreateReply>, merges: seq<MergeReply>)
    requires |creates| == |results| && |merges| == |results|
    ensures var run := RunPlan(results, message, branch, creates, merges);
      && (!run.aborted <==> forall i :: 0 <= i < |results| ==> ReplyOk(creates[i], merges[i]))
      && (!run.aborted ==> |run.calls| == 2 * |results|)
      && (run.aborted ==> |run.calls| <= 2 * |results|)
  {
    if |results| > 0 {
      RunPlanCompletes(results[1..], message, branch, creates[1..], merges[1..]);
      forall i | 0 < i < |results| ensures creates[1..][i - 1] == creates[i] && merges[1..][i - 1] == merges[i] { }
    }
  }

  /** An aborted plan stopped right after the calls for the first result whose reply was bad. */
  lemma {:induction false} RunPlanStopsAtFirstBadReply(results: seq<BuildSummary>, message: string, branch: string,
                                                       creates: seq<CreateReply>, merges: seq<MergeReply>, k: int)
    requires |creates| == |results| && |merges| == |results|
    requires FirstBadReply(creates, merges, k)
    ensures var run := RunPlan(results, message, branch, creates, merges);
      run.aborted && |run.calls| == (if creates[k].Created? then 2 * k + 2 else 2 * k + 1)
  {
    if k > 0 {
      assert FirstBadReply(creates[1..], merges[1..], k - 1) by {
        assert ReplyOk(creates[0], merges[0]);
        forall j | 0 <= j < k - 1 ensures ReplyOk(creates[1..][j], merges[1..][j]) {
          assert ReplyOk(creates[j + 1], merges[j + 1]);
        }
      }
      RunPlanStopsAtFirstBadReply(results[1..], message, branch, creates[1..], merges[1..], k - 1);
    }
  }

  /** Call k of the plan is the create call for result k/2 when k is even and that pull request's merge when k is odd. */
  lemma {:induction false} RunPlanCallsInOrder(results: seq<BuildSummary>, message: string, branch: string,
                                               creates: seq<CreateReply>, merges: seq<MergeReply>)
    requires |creates| == |results| && |merges| == |results|
    ensures forall k :: 0 <= k < |RunPlan(results, message, branch, creates, merges).calls| ==>
      PlannedCallAt(results, message, branch, creates, k, RunPlan(results, message, branch, creates, merges).calls[k])
  {
    if |results| > 0 {
      var step := PlanStep(results[0], message, branch, creates[0], merges[0]);
      if !step.aborted {
        var rest := RunPlan(results[1..], message, branch, creates[1..], merges[1..]);
        RunPlanCallsInOrder(results[1..], message, branch, creates[1..], merges[1..]);
        var calls := step.calls + rest.calls;
        forall k | 2 <= k < |calls| ensures PlannedCallAt(results, message, branch, creates, k, calls[k]) {
          assert calls[k] == rest.calls[k - 2];
          assert PlannedCallAt(results[1..], message, branch, creates[1..], k - 2, rest.calls[k - 2]);
          assert (k - 2) / 2 == k / 2 - 1 && (k - 2) % 2 == k % 2;
        }
      }
    }
  }

  /** Every pull request is opened from the batch branch onto the base branch with the batch message, and merged with it. */
  lemma PlanCallsUseBatchBranch(results: seq<BuildSummary>, message: string, branch: string,
                                creates: seq<CreateReply>, merges: seq<MergeReply>)
    requires |creates| == |results| && |merges| == |results|
    ensures forall call :: call in RunPlan(results, message, branch, creates, merges).calls ==>
      match call
      case CreatePullRequest(_, _, title, head, base) => title == message && head == branch && base == BaseBranch
      case MergePullRequest(_, _, _, m) => m == message
  {
    var run := RunPlan(results, message, branch, creates, merges);
    RunPlanCallsInOrder(results, message, branch, creates, merges);
    forall call | call in run.calls
      ensures match call
        case CreatePullRequest(_, _, title, head, base) => title == message && head == branch && base == BaseBranch
        case MergePullRequest(_, _, _, m) => m == message
    {
      var k :| 0 <= k < |run.calls| && run.calls[k] == call;
      assert PlannedCallAt(results, message, branch, creates, k, run.calls[k]);
    }
  }

  /** The plan for the results from `i` on: the step for result `i`, then, unless it stopped, the plan for the rest. */
  lemma RunPlanFrom(results: seq<BuildSummary>, message: string, branch: string,
                    creates: seq<CreateReply>, merges: seq<MergeReply>, i: nat)
    requires |creates| == |results| && |merges| == |results| && i < |results|
    ensures var step := PlanStep(results[i], message, branch, creates[i], merges[i]);
      RunPlan(results[i..], message, branch, creates[i..], merges[i..])
      == if step.aborted then step
         else Then(step.calls, RunPlan(results[i + 1..], message, branch, creates[i + 1..], merges[i + 1..]))
  {
    assert results[i..][1..] == results[i + 1..] && creates[i..][1..] == creates[i + 1..]
        && merges[i..][1..] == merges[i + 1..];
  }

  /**
   * One turn of the plan loop, given the calls made so far: a failed create
   * ends the plan after its create call, a bad merge reply after its merge
   * call, and otherwise the plan goes on with the next result.
   */
  lemma PlanLoopStep(results: seq<BuildSummary>, message: string, branch: string,
                     creates: seq<CreateReply>, merges: seq<MergeReply>, i: nat, calls: seq<Call>)
    requires |creates| == |results| && |merges| == |results| && i < |results|
    requires RunPlan(results, message, branch, creates, merges)
          == Then(calls, RunPlan(results[i..], message, branch, creates[i..], merges[i..]))
    ensures var create := CreateCall(results[i], message, branch);
      creates[i].CreateError? ==>
      RunPlan(results, message, branch, creates, merges) == PlanRun(calls + [create], true)
    ensures var create := CreateCall(results[i], message, branch);
      creates[i].Created? && !ReplyOk(creates[i], merges[i]) ==>
      RunPlan(results, message, branch, creates, merges)
      == PlanRun(calls + [create] + [MergeCall(results[i], creates[i].number, message)], true)
    ensures var create := CreateCall(results[i], message, branch);
      ReplyOk(creates[i], merges[i]) ==>
      RunPlan(results, message, branch, creates, merges)
      == Then(calls + [create] + [MergeCall(results[i], creates[i].number, message)],
              RunPlan(results[i + 1..], message, branch, creates[i + 1..], merges[i + 1..]))
  {
    RunPlanFrom(results, message, branch, creates, merges, i);
  }

  /** The create-then-merge loop over the results, stopping at the first failed reply. */
  method ExecutePlan(results: seq<BuildSummary>, message: string, branch: string,
                     creates: seq<CreateReply>, merges: seq<MergeReply>)
    returns (calls: seq<Call>, aborted: bool)
    requires |creates| == |results| && |merges| == |results|
    ensures PlanRun(calls, aborted) == RunPlan(results, message, branch, creates, merges)
  {
    calls, aborted := [], false;
    var i := 0;
    assert results[i..] == results && creates[i..] == creates && merges[i..] == merges;
    while i < |results|
      invariant 0 <= i <= |results|
      invariant RunPlan(results, message, branch, creates, merges)
             == Then(calls, RunPlan(results[i..], message, branch, creates[i..], merges[i..]))
    {
      PlanLoopStep(results, message, branch, creates, merges, i, calls);
      var result := results[i];
      calls := calls + [CreateCall(result, message, branch)];
      if creates[i].CreateError? {
        return calls, true;
      }
      calls := calls + [MergeCall(result, creates[i].number, message)];
      if merges[i].MergeError? || !merges[i].merged {
        return calls, true;
      }
      i := i + 1;
    }
  }

  /** How the gate ended the batch. */
  datatype GateStatus = CIFailureAbort | PlanAborted | AllMerged

  /**
   * The gate and the plan: when some build did not succeed, the failures
   * are printed and the run aborts before any hosting call; otherwise the
   * plan runs.
   */
  method FinishBatch(results: seq<BuildSummary>, message: string, branch: string,
                     creates: seq<CreateReply>, merges: seq<MergeReply>)
    returns (lines: seq<string>, calls: seq<Call>, status: GateStatus)
    requires |creates| == |results| && |merges| == |results|
    ensures lines == FailureLines(results)
    ensures status == CIFailureAbort <==> !AllSucceeded(results)
    ensures status == CIFailureAbort ==> calls == []
    ensures status != CIFailureAbort ==>
      PlanRun(calls, status == PlanAborted) == RunPlan(results, message, branch, creates, merges)
  {
    var success;
    success, lines := Gate(results);
    if !success {
      return lines, [], CIFailureAbort;
    }
    var aborted;
    calls, aborted := ExecutePlan(results, message, branch, creates, merges);
    status := if aborted then PlanAborted else AllMerged;
  }

  // ---------------------------------------------------------------------
  // The whole run

  /** The commit id the pushed branch points at: `git rev-parse HEAD` output without surrounding newlines and spaces. */
  function PushedSha(revParseOutput: string): (sha: string)
    ensures exists i, j :: GoStrings.TrimmedSlice(revParseOutput, GoStrings.ShaCutset, i, j) && sha == revParseOutput[i..j]
  {
    GoStrings.Trim(revParseOutput, GoStrings.ShaCutset)
  }

  /** How a run ends: waiting forever for a build, exiting on a poller's error, or through the gate. */
  datatype Report =
    | StillPolling
    | PollerExit(repo: Repository)
    | Finished(results: seq<BuildSummary>, lines: seq<string>, calls: seq<Call>, status: GateStatus)

  /** A repository's poller finds the build of its pushed commit. */
  ghost predicate BuildFound(responses: seq<Response>, revParseOutput: string) {
    exists j :: FirstMatchAt(responses, PushedSha(revParseOutput), j)
  }

  /** Every repository's poller, each on the commit its branch was pushed at. */
  method PollAll(revParse: seq<string>, responses: seq<seq<Response>>) returns (polls: seq<PollOutcome>)
    requires |responses| == |revParse|
    ensures |polls| == |revParse|
    ensures forall k :: 0 <= k < |polls| ==> Polled(responses[k], PushedSha(revParse[k]), polls[k])
  {
    polls := [];
    for i := 0 to |revParse|
      invariant |polls| == i
      invariant forall k :: 0 <= k < i ==> Polled(responses[k], PushedSha(revParse[k]), polls[k])
    {
      var sha := PushedSha(revParse[i]);
      var outcome := Poll(responses[i], sha);
      polls := polls + [outcome];
    }
  }

  /** The poller got replies in which the build of `sha` first shows up in reply j, and recorded that reply's first summary. */
  ghost predicate RecordedFrom(responses: seq<Response>, sha: string, recorded: BuildSummary) {
    exists j :: FirstMatchAt(responses, sha, j) && recorded == responses[j].summaries[0]
  }

  /** What the released results say about the replies each repository's poller got. */
  lemma CollectedFromReplies(revParse: seq<string>, responses: seq<seq<Response>>, polls: seq<PollOutcome>)
    requires |responses| == |revParse| && |polls| == |revParse|
    requires forall k :: 0 <= k < |polls| ==> Polled(responses[k], PushedSha(revParse[k]), polls[k])
    ensures Collect(polls).Released? <==> forall i :: 0 <= i < |polls| ==> BuildFound(responses[i], revParse[i])
    ensures Collect(polls).Released? ==> forall i :: 0 <= i < |polls| ==>
      RecordedFrom(responses[i], PushedSha(revParse[i]), Collect(polls).results[i])
  {
    forall k | 0 <= k < |polls|
      ensures polls[k].Recorded? <==> BuildFound(responses[k], revParse[k])
      ensures polls[k].Recorded? ==> RecordedFrom(responses[k], PushedSha(revParse[k]), polls[k].summary)
    {
      PolledRecordsIffMatched(responses[k], PushedSha(revParse[k]), polls[k]);
    }
  }

  /** The run exits on a poller's error exactly when some repository's poller meets a transport error before its build. */
  lemma CollectedExitsOnError(revParse: seq<string>, responses: seq<seq<Response>>, polls: seq<PollOutcome>)
    requires |responses| == |revParse| && |polls| == |revParse|
    requires forall k :: 0 <= k < |polls| ==> Polled(responses[k], PushedSha(revParse[k]), polls[k])
    ensures Collect(polls).Exited? ==>
      exists j :: FirstFetchErrorAt(responses[Collect(polls).poller], PushedSha(revParse[Collect(polls).poller]), j)
    ensures (exists i, j :: 0 <= i < |polls| && FirstFetchErrorAt(responses[i], PushedSha(revParse[i]), j)) ==>
      Collect(polls).Exited?
  {
    var c := Collect(polls);
    if c.Exited? {
      PolledRecordsIffMatched(responses[c.poller], PushedSha(revParse[c.poller]), polls[c.poller]);
    }
    if exists i, j :: 0 <= i < |polls| && FirstFetchErrorAt(responses[i], PushedSha(revParse[i]), j) {
      var i, j :| 0 <= i < |polls| && FirstFetchErrorAt(responses[i], PushedSha(revParse[i]), j);
      PolledRecordsIffMatched(responses[i], PushedSha(revParse[i]), polls[i]);
    }
  }

  /**
   * `Apply` after the local phase: `revParse[i]` is what `git rev-parse HEAD`
   * printed for repository i, `responses[i]` the replies its poller gets,
   * and `creates[i]`, `merges[i]` the hosting API's replies for the i-th
   * result.  Results are appended in repository order.
   */
  method Apply(opts: ApplyOptions, revParse: seq<string>, responses: seq<seq<Response>>,
               creates: seq<CreateReply>, merges: seq<MergeReply>) returns (report: Report)
    requires |revParse| == |opts.repos| && |responses| == |opts.repos|
    requires |creates| == |opts.repos| && |merges| == |opts.repos|
    ensures report.Finished? <==> forall i :: 0 <= i < |opts.repos| ==> BuildFound(responses[i], revParse[i])
    ensures report.PollerExit? ==>
      exists i, j :: 0 <= i < |opts.repos| && opts.repos[i] == report.repo && FirstFetchErrorAt(responses[i], PushedSha(revParse[i]), j)
    ensures (exists i, j :: 0 <= i < |opts.repos| && FirstFetchErrorAt(responses[i], PushedSha(revParse[i]), j)) ==>
      report.PollerExit?
    ensures report.Finished? ==> |report.results| == |opts.repos|
    ensures report.Finished? ==> forall i :: 0 <= i < |opts.repos| ==>
      RecordedFrom(responses[i], PushedSha(revParse[i]), report.results[i])
    ensures report.Finished? ==> report.lines == FailureLines(report.results)
    ensures report.Finished? ==> (report.status == CIFailureAbort <==> !AllSucceeded(report.results))
    ensures report.Finished? && !AllSucceeded(report.results) ==> report.calls == []
    ensures report.Finished? && AllSucceeded(report.results) ==>
      PlanRun(report.calls, report.status == PlanAborted) == RunPlan(report.results, opts.message, opts.branch, creates, merges)
  {
    var polls := PollAll(revParse, responses);
    CollectedFromReplies(revParse, responses, polls);
    CollectedExitsOnError(revParse, responses, polls);
    match Collect(polls)
    case Blocked =>
      report := StillPolling;
    case Exited(p) =>
      report := PollerExit(opts.repos[p]);
    case Released(results) =>
      var lines, calls, status := FinishBatch(results, opts.message, opts.branch, creates, merges);
      report := Finished(results, lines, calls, status);
  }
}
