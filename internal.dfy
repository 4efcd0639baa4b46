/**
 * `applyPatchesLocally` (internal.go): one patch id names the branch and
 * the fallback commit message of a whole batch; each repository in turn is
 * cloned into a temporary directory, branched, patched, committed and
 * pushed, and its commit is emitted.  The temporary directory, the git
 * commands, the change of directory and the patch callback are replies
 * given per repository; any failure is fatal and ends the process.
 */
module LocalPatches {
  import opened Wrappers
  import GoStrings
  import Strconv

  /**
   * The hosting service's view of a repository, reduced to the clone URL;
   * its full name and id only label log lines and name the temporary
   * directory, neither of which is modelled.
   */
  datatype RemoteRepository = RemoteRepository(sshUrl: string)

  /** What a command printed, and whether it exited successfully. */
  datatype Exec = Exec(ok: bool, output: string)

  /** What the patch callback returned: its commit message (possibly empty) and whether it returned an error. */
  datatype PatchReply = PatchReply(commitMessage: string, failed: bool)

  /** The replies the environment gives for one repository, step by step. */
  datatype Workspace = Workspace(
    tempDir: Option<string>,
    clone: Exec,
    checkout: Exec,
    chdirOk: bool,
    patch: PatchReply,
    add: Exec,
    commit: Exec,
    push: Exec,
    revParse: Exec)

  /** A git command run in directory `dir`. */
  datatype Command = Git(dir: string, args: seq<string>)

  /** The step at which a repository's processing ended the process. */
  datatype Step = TempDirStep | CloneStep | CheckoutStep | ChdirStep | PatchStep
                | AddStep | CommitStep | PushStep | RevParseStep

  /** A pushed commit: the repository and the id of the commit its branch now points at. */
  datatype Commit = Commit(repo: RemoteRepository, sha: string)

  /** The commands a repository's processing ran, and its commit or the step that failed. */
  datatype RepoRun = RepoRun(commands: seq<Command>, result: Result<Commit, Step>)

  /** The id of one batch and the names derived from it. */
  datatype PatchIdentity = PatchIdentity(id: string, branch: string, genericMessage: string)

  /** The batch's names for the random draw `draw`: branch "patch-<id>" and message "Applying patch <id>". */
  function NewPatchIdentity(draw: nat): (p: PatchIdentity)
    ensures p.branch == "patch-" + p.id && p.genericMessage == "Applying patch " + p.id
    ensures Strconv.IsDecimal(p.id) && Strconv.DecimalValue(p.id) == draw
  {
    Strconv.DecimalValueOfItoa(draw);
    var id := Strconv.Itoa(draw);
    PatchIdentity(id, "patch-" + id, "Applying patch " + id)
  }

  /** Two batches from different draws never share a branch. */
  lemma DistinctDrawsDistinctBranches(d1: nat, d2: nat)
    ensures NewPatchIdentity(d1).branch == NewPatchIdentity(d2).branch ==> d1 == d2
  {
    var p1, p2 := NewPatchIdentity(d1), NewPatchIdentity(d2);
    if p1.branch == p2.branch {
      assert p1.branch[6..] == p1.id && p2.branch[6..] == p2.id;
    }
  }

  /** The commit message: the callback's when it gave one, the batch's generic one otherwise. */
  function CommitMessage(patchMessage: string, genericMessage: string): (m: string)
    ensures patchMessage != "" ==> m == patchMessage
    ensures patchMessage == "" ==> m == genericMessage
    ensures genericMessage != "" ==> m != ""
  {
    var m := patchMessage;
    if m == "" then genericMessage else m
  }

  /** The message wrapped in literal double quotes, as passed to `git commit -m`. */
  function Quoted(m: string): (q: string)
    ensures |q| == |m| + 2 && q[0] == '"' && q[|q| - 1] == '"' && q[1..|q| - 1] == m
  {
    "\"" + m + "\""
  }

  /** The commands that publish a patched checkout, in the order they run. */
  function PublishCommands(dir: string, sshUrl: string, branch: string, message: string): seq<Command> {
    [ Git(dir, ["clone", sshUrl, dir]),
      Git(dir, ["checkout", "-b", branch]),
      Git(dir, ["add", "-A"]),
      Git(dir, ["commit", "-m", Quoted(message)]),
      Git(dir, ["push", "origin", branch]),
      Git(dir, ["rev-parse", "HEAD"]) ]
  }

  /** The position of a step in the loop body. */
  function StepOrder(s: Step): nat {
    match s
    case TempDirStep => 0
    case CloneStep => 1
    case CheckoutStep => 2
    case ChdirStep => 3
    case PatchStep => 4
    case AddStep => 5
    case CommitStep => 6
    case PushStep => 7
    case RevParseStep => 8
  }

  /** The reply `w` gives for step `s` is a success. */
  predicate StepOk(w: Workspace, s: Step) {
    match s
    case TempDirStep => w.tempDir.Some?
    case CloneStep => w.clone.ok
    case CheckoutStep => w.checkout.ok
    case ChdirStep => w.chdirOk
    case PatchStep => !w.patch.failed
    case AddStep => w.add.ok
    case CommitStep => w.commit.ok
    case PushStep => w.push.ok
    case RevParseStep => w.revParse.ok
  }

  /** The first step whose reply is a failure, in the order the loop body runs them. */
  function FailedStep(w: Workspace): (failed: Option<Step>)
    ensures failed.None? <==> (w.tempDir.Some? && w.clone.ok && w.checkout.ok && w.chdirOk && !w.patch.failed
                               && w.add.ok && w.commit.ok && w.push.ok && w.revParse.ok)
    ensures failed.Some? ==> !StepOk(w, failed.value)
    ensures failed.Some? ==> forall s :: StepOrder(s) < StepOrder(failed.value) ==> StepOk(w, s)
  {
    if w.tempDir.None? then Some(TempDirStep)
    else if !w.clone.ok then Some(CloneStep)
    else if !w.checkout.ok then Some(CheckoutStep)
    else if !w.chdirOk then Some(ChdirStep)
    else if w.patch.failed then Some(PatchStep)
    else if !w.add.ok then Some(AddStep)
    else if !w.commit.ok then Some(CommitStep)
    else if !w.push.ok then Some(PushStep)
    else if !w.revParse.ok then Some(RevParseStep)
    else None
  }

  /** How many of the publishing commands have run when `failed` is where processing stopped. */
  function CommandsRun(failed: Option<Step>): (n: nat)
    ensures n <= 6
  {
    match failed
    case None => 6
    case Some(step) =>
      match step
      case TempDirStep => 0
      case CloneStep => 1
      case CheckoutStep => 2
      case ChdirStep => 2
      case PatchStep => 2
      case AddStep => 3
      case CommitStep => 4
      case PushStep => 5
      case RevParseStep => 6
  }

  /**
   * One repository of the batch, as the loop body runs it: the commands run
   * up to the first failure, all in the repository's temporary directory,
   * and a published commit carries the trimmed output of `git rev-parse HEAD`.
   */
  function PublishRepo(repo: RemoteRepository, branch: string, genericMessage: string, w: Workspace): (run: RepoRun)
    ensures run.result.Success? <==> FailedStep(w).None?
    ensures run.result.Failure? ==> run.result.error == FailedStep(w).value
    ensures w.tempDir.None? ==> run.commands == []
    ensures w.tempDir.Some? ==>
      run.commands <= PublishCommands(w.tempDir.value, repo.sshUrl, branch, CommitMessage(w.patch.commitMessage, genericMessage))
    ensures w.tempDir.Some? ==>
      var all := PublishCommands(w.tempDir.value, repo.sshUrl, branch, CommitMessage(w.patch.commitMessage, genericMessage));
      && (run.result == Failure(CloneStep) ==> run.commands == all[..1])
      && (run.result in {Failure(CheckoutStep), Failure(ChdirStep), Failure(PatchStep)} ==> run.commands == all[..2])
      && (run.result == Failure(AddStep) ==> run.commands == all[..3])
      && (run.result == Failure(CommitStep) ==> run.commands == all[..4])
      && (run.result == Failure(PushStep) ==> run.commands == all[..5])
      && (run.result == Failure(RevParseStep) ==> run.commands == all[..6])
    ensures run.result.Success? ==>
      run.commands == PublishCommands(w.tempDir.value, repo.sshUrl, branch, CommitMessage(w.patch.commitMessage, genericMessage))
    ensures run.result.Success? ==> run.result.value.repo == repo
    ensures run.result.Success? ==> exists i, j ::
      GoStrings.TrimmedSlice(w.revParse.output, GoStrings.ShaCutset, i, j) && run.result.value.sha == w.revParse.output[i..j]
  {
    var failed := FailedStep(w);
    match w.tempDir
    case None => RepoRun([], Failure(TempDirStep))
    case Some(dir) =>
      var commands := PublishCommands(dir, repo.sshUrl, branch, CommitMessage(w.patch.commitMessage, genericMessage));
      var ran := commands[..CommandsRun(failed)];
      if failed.Some? then RepoRun(ran, Failure(failed.value))
      else RepoRun(ran, Success(Commit(repo, GoStrings.Trim(w.revParse.output, GoStrings.ShaCutset))))
  }

  /** Where the publishing commands name the branch. */
  lemma PublishCommandsOnBranch(dir: string, sshUrl: string, branch: string, message: string)
    ensures |PublishCommands(dir, sshUrl, branch, message)| == 6
    ensures PublishCommands(dir, sshUrl, branch, message)[1] == Git(dir, ["checkout", "-b", branch])
    ensures PublishCommands(dir, sshUrl, branch, message)[4] == Git(dir, ["push", "origin", branch])
  {
  }

  /** A published repository was committed with the callback's message, or the generic one when the callback gave none, in double quotes. */
  lemma PublishedCommitMessage(repo: RemoteRepository, branch: string, genericMessage: string, w: Workspace)
    requires PublishRepo(repo, branch, genericMessage, w).result.Success?
    ensures var message := if w.patch.commitMessage == "" then genericMessage else w.patch.commitMessage;
      var commands := PublishRepo(repo, branch, genericMessage, w).commands;
      |commands| == 6 && commands[3] == Git(w.tempDir.value, ["commit", "-m", "\"" + message + "\""])
  {
    var message := CommitMessage(w.patch.commitMessage, genericMessage);
    assert Quoted(message) == "\"" + message + "\"";
  }

  /** A published repository was branched and pushed on the batch's branch. */
  lemma PublishedOnBatchBranch(repo: RemoteRepository, branch: string, genericMessage: string, w: Workspace)
    requires PublishRepo(repo, branch, genericMessage, w).result.Success?
    ensures var commands := PublishRepo(repo, branch, genericMessage, w).commands;
      && |commands| == 6
      && commands[1] == Git(w.tempDir.value, ["checkout", "-b", branch])
      && commands[4] == Git(w.tempDir.value, ["push", "origin", branch])
  {
    var message := CommitMessage(w.patch.commitMessage, genericMessage);
    PublishCommandsOnBranch(w.tempDir.value, repo.sshUrl, branch, message);
  }

  /**
   * The loop over the repositories: one commit per repository, in order,
   * all on the batch's branch; the first failure ends the process, so the
   * commits emitted before it are all there is.  A run without failure
   * reaches the deferred close of the channel; the channel's capacity
   * `|repos|` is never exceeded.
   */
  method ApplyPatchesLocally(draw: nat, repos: seq<RemoteRepository>, workspaces: seq<Workspace>)
    returns (out: seq<Commit>, fatal: Option<Step>)
    requires |workspaces| == |repos|
    ensures |out| <= |repos|
    ensures fatal.None? <==> |out| == |repos|
    ensures forall k :: 0 <= k < |out| ==> out[k].repo == repos[k]
    ensures forall k :: 0 <= k < |out| ==>
      PublishRepo(repos[k], NewPatchIdentity(draw).branch, NewPatchIdentity(draw).genericMessage, workspaces[k]).result
        == Success(out[k])
    ensures fatal.Some? ==>
      PublishRepo(repos[|out|], NewPatchIdentity(draw).branch, NewPatchIdentity(draw).genericMessage, workspaces[|out|]).result
        == Failure(fatal.value)
  {
    var identity := NewPatchIdentity(draw);
    var branch := identity.branch;
    var genericCommitMessage := identity.genericMessage;
    out, fatal := [], None;
    var i := 0;
    while i < |repos|
      invariant 0 <= i <= |repos| && |out| == i
      invariant forall k :: 0 <= k < i ==>
        FailedStep(workspaces[k]).None? && out[k] == Commit(repos[k], GoStrings.Trim(workspaces[k].revParse.output, GoStrings.ShaCutset))
    {
      var w := workspaces[i];
      var failed := FailedStep(w);
      if failed.Some? {
        fatal := failed;
        break;
      }
      out := out + [Commit(repos[i], GoStrings.Trim(w.revParse.output, GoStrings.ShaCutset))];
      i := i + 1;
    }
    forall k | 0 <= k < |out|
      ensures PublishRepo(repos[k], branch, genericCommitMessage, workspaces[k]).result == Success(out[k])
    {
    }
  }
}
