/** The Git handoff in its two places: the workflow service and the controller, which also keeps a stage timeline. */
module GitWorkflow {
  import opened Results
  import opened Git

  /** RepositoryOperations on one repository; fault says which commands fail for outside reasons. */
  class RepositoryOperations {
    var session: Session
    const fault: nat -> bool

    constructor (repo: Repo, fault: nat -> bool)
      ensures session == Session(repo, 0) && this.fault == fault
    {
      session := Session(repo, 0);
      this.fault := fault;
    }

    /** `_run`: false stands for the raised exception. */
    method RunCommand(c: Command) returns (ok: bool)
      modifies this
      ensures (session, ok) == Do(old(session), c, fault)
    {
      var (next, done) := Do(session, c, fault);
      session := next;
      ok := done;
    }

    method CurrentBranch() returns (r: Option<string>)
      modifies this
      ensures var (next, ok) := Do(old(session), ShowCurrent, fault);
              session == next && r == (if ok then Some(next.repo.head) else None)
    {
      var ok := RunCommand(ShowCurrent);
      r := if ok then Some(session.repo.head) else None;
    }

    method ChangedFiles() returns (r: Option<seq<string>>)
      modifies this
      ensures var (next, ok) := Do(old(session), Status, fault);
              session == next && r == (if ok then Some(next.repo.dirty) else None)
    {
      var ok := RunCommand(Status);
      r := if ok then Some(session.repo.dirty) else None;
    }

    /** CommitService.create_commit */
    method CreateCommit(files: seq<string>, message: string) returns (r: Option<Commit>)
      modifies this
      ensures var (next, ok) := DoAll(old(session), CommitCommands(files, message), fault);
              session == next && r == (if ok then HeadCommit(next.repo) else None)
              && (ok ==> r.Some?)
    {
      hide DoAll;
      CommitSteps(session, files, message, fault);
      var ok := RunCommand(Add(files));
      if !ok {
        return None;
      }
      ok := RunCommand(MakeCommit(message));
      if !ok {
        return None;
      }
      ok := RunCommand(RevParseHead);
      r := if ok then HeadCommit(session.repo) else None;
    }

    method PushBranch(branch: string, dryRun: bool) returns (ok: bool)
      modifies this
      ensures (session, ok) == DoAll(old(session), PushCommands(branch, dryRun), fault)
    {
      hide Do, DoAll;
      OneStep(session, Push(branch), fault);
      TwoSteps(session, RemoteUrl, Verify(branch), fault);
      if dryRun {
        ok := RunCommand(RemoteUrl);
        if ok {
          ok := RunCommand(Verify(branch));
        }
      } else {
        ok := RunCommand(Push(branch));
      }
    }
  }

  /** `GitWorkflow.complete_issue` */
  method CompleteIssue(ops: RepositoryOperations, p: Completion) returns (r: Result<WorkflowResult, GitError>)
    modifies ops
    ensures (ops.session, r) == Complete(old(ops.session), p, ops.fault)
  {
    hide Do, DoAll, CommitCommands, PushCommands;
    var current := ops.CurrentBranch();
    if current.None? {
      return Err(GitFailed);
    }
    var branch := current.value;
    if branch == p.base {
      var ok := ops.RunCommand(CheckoutReset(p.issueBranch, p.base));
      if !ok {
        return Err(GitFailed);
      }
      branch := p.issueBranch;
    }
    if branch == p.base {
      return Err(RefusedDefaultBranch);
    }
    var changed := ops.ChangedFiles();
    if changed.None? {
      return Err(GitFailed);
    }
    var commit: Option<Commit> := None;
    if p.autoCommit && changed.value != [] {
      commit := ops.CreateCommit(changed.value, p.message);
      if commit.None? {
        return Err(GitFailed);
      }
    }
    r := PublishChanges(ops, branch, commit, p);
  }

  /** The second half of `complete_issue`: push, pull request, cleanup. */
  method PublishChanges(ops: RepositoryOperations, branch: string, commit: Option<Commit>, p: Completion)
    returns (r: Result<WorkflowResult, GitError>)
    modifies ops
    ensures (ops.session, r) == Publish(old(ops.session), branch, commit, p, ops.fault)
  {
    hide Do, DoAll, PushCommands;
    var pushed := false;
    if p.autoPush && commit.Some? {
      var ok := ops.PushBranch(branch, p.dryRun);
      if !ok {
        return Err(GitFailed);
      }
      pushed := true;
    }
    var pullRequest: Option<PullRequest> := None;
    if p.autoCreatePr && (commit.Some? || p.dryRun) {
      var ok := ops.RunCommand(OpenPullRequest(PullRequest(branch, p.base), p.dryRun));
      if !ok {
        return Err(GitFailed);
      }
      pullRequest := Some(PullRequest(branch, p.base));
    }
    if p.autoCleanup && p.dryRun && branch != p.base {
      TwoSteps(ops.session, Checkout(p.base), Delete(branch), ops.fault);
      var ok := ops.RunCommand(Checkout(p.base));
      if ok {
        ok := ops.RunCommand(Delete(branch));
      }
      if !ok {
        return Err(GitFailed);
      }
    }
    r := Ok(WorkflowResult(branch, commit, pushed, pullRequest, p.dryRun));
  }

  // ----- the controller's copy -----

  datatype StageEntry = StageEntry(name: string, passed: bool)

  /** Every entry added since then passed, but for the last one when a stage failed. */
  ghost predicate Recorded(before: seq<StageEntry>, after: seq<StageEntry>, failed: bool) {
    && before <= after
    && (failed ==> |before| < |after|)
    && (forall i :: |before| <= i < |after| ==> (after[i].passed <==> !(failed && i == |after| - 1)))
  }

  class StageTimeline {
    var entries: seq<StageEntry>

    constructor ()
      ensures entries == []
    {
      entries := [];
    }

    /** `_run_stage` after its action: a passing or a failing entry. */
    method Add(name: string, passed: bool)
      modifies this
      ensures entries == old(entries) + [StageEntry(name, passed)]
    {
      entries := entries + [StageEntry(name, passed)];
    }

    /** `_ensure_failure_stage` */
    method EnsureFailure()
      modifies this
      ensures entries != [] && !entries[|entries| - 1].passed
      ensures entries == old(entries) || entries == old(entries) + [StageEntry("Controller", false)]
      ensures entries == old(entries) <==> old(entries) != [] && !old(entries)[|old(entries)| - 1].passed
    {
      if entries != [] && !entries[|entries| - 1].passed {
        return;
      }
      entries := entries + [StageEntry("Controller", false)];
    }
  }

  /** `PipelineController._complete_git_workflow`: the same handoff, with every step recorded as a stage. */
  method CompleteGitWorkflow(timeline: StageTimeline, ops: RepositoryOperations, p: Completion) returns (r: Result<WorkflowResult, GitError>)
    modifies timeline, ops
    ensures (ops.session, r) == Complete(old(ops.session), p, ops.fault)
    ensures Recorded(old(timeline.entries), timeline.entries, r == Err(GitFailed))
  {
    hide Do, DoAll, CommitCommands, PushCommands, OnBranch;
    var current := ops.CurrentBranch();
    timeline.Add("Commit", current.Some?);
    if current.None? {
      return Err(GitFailed);
    }
    var branch := current.value;
    if current.value == p.base {
      var ok := ops.RunCommand(CheckoutReset(p.issueBranch, p.base));
      timeline.Add("Branch creation", ok);
      if !ok {
        return Err(GitFailed);
      }
      branch := p.issueBranch;
    }
    if branch == p.base {
      return Err(RefusedDefaultBranch);
    }
    ghost var before := timeline.entries;
    r := StageChanges(timeline, ops, branch, p);
    RecordedTogether(old(timeline.entries), before, timeline.entries, r == Err(GitFailed));
  }

  lemma {:induction false} RecordedTogether(before: seq<StageEntry>, middle: seq<StageEntry>, after: seq<StageEntry>, failed: bool)
    requires Recorded(before, middle, false) && Recorded(middle, after, failed)
    ensures Recorded(before, after, failed)
  {
    assert after[..|before|] == after[..|middle|][..|before|];
    forall i | |before| <= i < |after|
      ensures after[i].passed <==> !(failed && i == |after| - 1)
    {
      if i < |middle| {
        assert after[i] == after[..|middle|][i] == middle[i];
      }
    }
  }

  /** The middle of `_complete_git_workflow`: the changed files and the commit. */
  method StageChanges(timeline: StageTimeline, ops: RepositoryOperations, branch: string, p: Completion) returns (r: Result<WorkflowResult, GitError>)
    modifies timeline, ops
    ensures (ops.session, r) == OnBranch(old(ops.session), branch, p, ops.fault)
    ensures Recorded(old(timeline.entries), timeline.entries, r == Err(GitFailed))
  {
    hide Do, DoAll, CommitCommands, PushCommands, Publish;
    var changed := ops.ChangedFiles();
    timeline.Add("Repository changes detection", changed.Some?);
    if changed.None? {
      return Err(GitFailed);
    }
    var commit: Option<Commit> := None;
    if p.autoCommit && changed.value != [] {
      commit := ops.CreateCommit(changed.value, p.message);
      timeline.Add("Commit", commit.Some?);
      if commit.None? {
        return Err(GitFailed);
      }
    }
    ghost var before := timeline.entries;
    r := PublishStages(timeline, ops, branch, commit, p);
    RecordedTogether(old(timeline.entries), before, timeline.entries, r == Err(GitFailed));
  }

  /** The second half of `_complete_git_workflow`. */
  method PublishStages(timeline: StageTimeline, ops: RepositoryOperations, branch: string, commit: Option<Commit>, p: Completion)
    returns (r: Result<WorkflowResult, GitError>)
    modifies timeline, ops
    ensures (ops.session, r) == Publish(old(ops.session), branch, commit, p, ops.fault)
    ensures Recorded(old(timeline.entries), timeline.entries, r == Err(GitFailed))
  {
    hide Do, DoAll, PushCommands;
    var pushed := false;
    if p.autoPush && commit.Some? {
      var ok := ops.PushBranch(branch, p.dryRun);
      timeline.Add("Push", ok);
      if !ok {
        return Err(GitFailed);
      }
      pushed := true;
    }
    var pullRequest: Option<PullRequest> := None;
    if p.autoCreatePr && (commit.Some? || p.dryRun) {
      var ok := ops.RunCommand(OpenPullRequest(PullRequest(branch, p.base), p.dryRun));
      timeline.Add("Pull Request", ok);
      if !ok {
        return Err(GitFailed);
      }
      pullRequest := Some(PullRequest(branch, p.base));
    }
    if p.autoCleanup && p.dryRun && branch != p.base {
      TwoSteps(ops.session, Checkout(p.base), Delete(branch), ops.fault);
      var ok := ops.RunCommand(Checkout(p.base));
      timeline.Add("Repository checkout", ok);
      if !ok {
        return Err(GitFailed);
      }
      ok := ops.RunCommand(Delete(branch));
      timeline.Add("Branch creation", ok);
      if !ok {
        return Err(GitFailed);
      }
    }
    r := Ok(WorkflowResult(branch, commit, pushed, pullRequest, p.dryRun));
  }
}
