/** The controller: how often it runs the engineering pipeline for one issue, and what its status means. */
module Controller {
  import opened Results
  import opened PySeq
  import opened Issues
  import opened Git
  import opened GitWorkflow

  /** How one pipeline run ends, and the repository it leaves behind. */
  datatype Attempt =
    | Produced(files: seq<string>, agentPassed: bool, after: Repo)
    | AttemptRaises(after: Repo)

  /** A run after which another one is tried. */
  predicate Fruitless(a: Attempt) {
    a.Produced? && a.files == []
  }

  // ----- the attempt loop -----

  /** The runs made from attempt number done on. */
  function Runs(attempts: nat -> Attempt, done: nat, maxRetries: int): nat
    decreases maxRetries + 1 - done
  {
    if done > maxRetries then 0
    else if Fruitless(attempts(done)) then 1 + Runs(attempts, done + 1, maxRetries)
    else 1
  }

  /**
   The number of runs is pinned down: at most maxRetries + 1, every run but the last fruitless, and the last one
   either not fruitless or the one that uses up the retries.
  */
  ghost predicate StopsAfter(attempts: nat -> Attempt, maxRetries: int, n: nat) {
    && n <= Max(0, maxRetries + 1)
    && (forall i: nat :: i < n - 1 ==> Fruitless(attempts(i)))
    && (n == Max(0, maxRetries + 1) || (n > 0 && !Fruitless(attempts(n - 1))))
  }

  lemma {:induction false} RunsFrom(attempts: nat -> Attempt, done: nat, maxRetries: int)
    requires forall i: nat :: i < done ==> Fruitless(attempts(i))
    requires done <= Max(0, maxRetries + 1)
    ensures StopsAfter(attempts, maxRetries, done + Runs(attempts, done, maxRetries))
    decreases maxRetries + 1 - done
  {
    if done <= maxRetries && Fruitless(attempts(done)) {
      RunsFrom(attempts, done + 1, maxRetries);
    }
  }

  lemma {:induction false} RunsExact(attempts: nat -> Attempt, maxRetries: int, n: nat)
    ensures n == Runs(attempts, 0, maxRetries) <==> StopsAfter(attempts, maxRetries, n) && (maxRetries >= 0 ==> n > 0)
  {
    RunsFrom(attempts, 0, maxRetries);
  }

  /** What the loop hands on: nothing when no run was made or one raised, else the files the last run names. */
  function LoopFiles(attempts: nat -> Attempt, maxRetries: int): Option<seq<string>> {
    var n := Runs(attempts, 0, maxRetries);
    if n == 0 || attempts(n - 1).AttemptRaises? then None else Some(attempts(n - 1).files)
  }

  /** The repository after the loop. */
  function LoopRepo(attempts: nat -> Attempt, maxRetries: int, before: Repo): Repo {
    var n := Runs(attempts, 0, maxRetries);
    if n == 0 then before else attempts(n - 1).after
  }

  /** The attempt loop of `execute`; audits counts the "engineering_retry" entries it writes. */
  method RunAttempts(timeline: StageTimeline, ops: RepositoryOperations, attempts: nat -> Attempt, maxRetries: int)
    returns (runs: nat, audits: nat, files: Option<seq<string>>)
    modifies timeline, ops
    ensures StopsAfter(attempts, maxRetries, runs) && runs == Runs(attempts, 0, maxRetries)
    ensures audits == Max(0, runs - 1)
    ensures files == LoopFiles(attempts, maxRetries)
    ensures files == if runs == 0 || attempts(runs - 1).AttemptRaises? then None else Some(attempts(runs - 1).files)
    ensures ops.session.repo == if runs == 0 then old(ops.session).repo else attempts(runs - 1).after
    ensures ops.session == old(ops.session).(repo := LoopRepo(attempts, maxRetries, old(ops.session).repo))
    ensures old(timeline.entries) <= timeline.entries
    ensures |timeline.entries| == |old(timeline.entries)| + 2 * runs
                                  - (if runs > 0 && attempts(runs - 1).AttemptRaises? then 1 else 0)
  {
    runs, audits, files := 0, 0, None;
    RunsFrom(attempts, 0, maxRetries);
    while runs <= maxRetries
      invariant runs <= Max(0, maxRetries + 1) && audits == runs
      invariant forall i: nat :: i < runs ==> Fruitless(attempts(i))
      invariant runs + Runs(attempts, runs, maxRetries) == Runs(attempts, 0, maxRetries)
      invariant files == (if runs == 0 then None else Some([]))
      invariant ops.session == old(ops.session).(repo := if runs == 0 then old(ops.session).repo else attempts(runs - 1).after)
      invariant old(timeline.entries) <= timeline.entries
      invariant |timeline.entries| == |old(timeline.entries)| + 2 * runs
      invariant maxRetries >= 0 ==> runs <= maxRetries
      decreases maxRetries + 1 - runs
    {
      var attempt := attempts(runs);
      runs := runs + 1;
      ops.session := ops.session.(repo := attempt.after);
      timeline.Add("OpenClaw Agent launch", attempt.Produced?);
      if attempt.AttemptRaises? {
        files := None;
        return;
      }
      timeline.Add("OpenClaw Agent completion", attempt.agentPassed);
      files := Some(attempt.files);
      if attempt.files != [] {
        break;
      }
      if runs <= maxRetries {
        audits := audits + 1;
        continue;
      }
      break;
    }
  }

  // ----- one whole execution -----

  /**
   Everything outside the controller: how many of the three stages before branch creation pass, the repository they
   leave, the pipeline runs, and what refreshing the checkout after an escalation gives.
  */
  datatype Surroundings = Surroundings(
    passing: nat,
    refreshed: Repo,
    attempts: nat -> Attempt,
    refreshedAgain: Option<Repo>)

  datatype ControllerResult = ControllerResult(status: string, attempts: int, git: Option<WorkflowResult>)

  predicate Succeeded(status: string) {
    status in {"completed", "pull_request_created", "dry_run_pr_created"}
  }

  /** The three stages before branch creation; false when one of them raises. */
  method PrepareWorkspace(timeline: StageTimeline, ops: RepositoryOperations, surroundings: Surroundings) returns (ok: bool)
    modifies timeline, ops
    ensures ok == (surroundings.passing >= 3)
    ensures ops.session == if ok then old(ops.session).(repo := surroundings.refreshed) else old(ops.session)
    ensures Recorded(old(timeline.entries), timeline.entries, !ok)
  {
    timeline.Add("Workspace", surroundings.passing > 0);
    if surroundings.passing == 0 {
      return false;
    }
    timeline.Add("Repository checkout", surroundings.passing > 1);
    if surroundings.passing == 1 {
      return false;
    }
    timeline.Add("Repository checkout", surroundings.passing > 2);
    if surroundings.passing == 2 {
      return false;
    }
    ops.session := ops.session.(repo := surroundings.refreshed);
    ok := true;
  }

  /** The session in which the handoff starts, or None when preparing the checkout fails. */
  function Prepared(s: Session, around: Surroundings, p: Completion, fault: nat -> bool): Option<Session> {
    if around.passing < 3 then None
    else
      var (next, ok) := Do(s.(repo := around.refreshed), CheckoutReset(p.issueBranch, p.base), fault);
      if ok then Some(next) else None
  }

  /** How an execution ends: escalated, through the Git handoff, or failed. */
  function Ending(s: Session, around: Surroundings, maxRetries: int, p: Completion, fault: nat -> bool): (Session, string, Option<WorkflowResult>) {
    match Prepared(s, around, p, fault)
    case None =>
      (if around.passing < 3 then s else Do(s.(repo := around.refreshed), CheckoutReset(p.issueBranch, p.base), fault).0, "failed", None)
    case Some(prepared) =>
      var worked := prepared.(repo := LoopRepo(around.attempts, maxRetries, prepared.repo));
      match LoopFiles(around.attempts, maxRetries)
      case None => (worked, "failed", None)
      case Some(files) =>
        if files == [] then
          match around.refreshedAgain
          case None => (worked, "failed", None)
          case Some(repo) => (worked.(repo := repo), "escalated", None)
        else
          var (handed, r) := Complete(worked, p, fault);
          match r
          case Err(_) => (handed, "failed", None)
          case Ok(done) => (handed, if done.dryRun then "dry_run_pr_created" else "pull_request_created", Some(done))
  }

  /** How many pipeline runs an execution makes. */
  function RunsOf(s: Session, around: Surroundings, maxRetries: int, p: Completion, fault: nat -> bool): nat {
    if Prepared(s, around, p, fault).None? then 0 else Runs(around.attempts, 0, maxRetries)
  }

  /** `_ensure_failure_stage` and the rest of the handler around `execute`. */
  method Fail(timeline: StageTimeline, issue: WorkerIssue) returns (r: ControllerResult)
    modifies timeline
    ensures r == ControllerResult("failed", issue.attempts, None)
    ensures exists i :: 0 <= i < |timeline.entries| && !timeline.entries[i].passed
  {
    timeline.EnsureFailure();
    assert !timeline.entries[|timeline.entries| - 1].passed;
    ghost var last := |timeline.entries| - 1;
    timeline.Add("Discord notification", true);
    assert !timeline.entries[last].passed;
    r := ControllerResult("failed", issue.attempts, None);
  }

  /** `PipelineController.execute` */
  method Execute(timeline: StageTimeline, ops: RepositoryOperations, issue: WorkerIssue, around: Surroundings, maxRetries: int, p: Completion)
    returns (r: ControllerResult, runs: nat, audits: nat)
    modifies timeline, ops
    ensures (ops.session, r.status, r.git) == Ending(old(ops.session), around, maxRetries, p, ops.fault)
    ensures runs == RunsOf(old(ops.session), around, maxRetries, p, ops.fault)
    ensures audits == Max(0, runs - 1)
    ensures r.attempts == if r.status == "failed" then issue.attempts else runs
    ensures r.status == "failed" ==> exists i :: 0 <= i < |timeline.entries| && !timeline.entries[i].passed
  {
    hide Do, Complete, Runs, LoopFiles, LoopRepo, StopsAfter;
    runs, audits := 0, 0;
    timeline.Add("Queue", true);
    var ok := PrepareWorkspace(timeline, ops, around);
    if ok {
      ok := ops.RunCommand(CheckoutReset(p.issueBranch, p.base));
      timeline.Add("Branch creation", ok);
    }
    if !ok {
      r := Fail(timeline, issue);
      return;
    }
    var files;
    runs, audits, files := RunAttempts(timeline, ops, around.attempts, maxRetries);
    if files.None? {
      r := Fail(timeline, issue);
      return;
    }
    if files.value == [] {
      timeline.Add("Discord notification", true);
      timeline.Add("Repository checkout", around.refreshedAgain.Some?);
      if around.refreshedAgain.None? {
        r := Fail(timeline, issue);
        return;
      }
      ops.session := ops.session.(repo := around.refreshedAgain.value);
      r := ControllerResult("escalated", runs, None);
      return;
    }
    timeline.Add("Repository changes detection", true);
    var handed := CompleteGitWorkflow(timeline, ops, p);
    if handed.Err? {
      r := Fail(timeline, issue);
      return;
    }
    timeline.Add("Discord notification", true);
    r := ControllerResult(if handed.value.dryRun then "dry_run_pr_created" else "pull_request_created", runs, Some(handed.value));
  }

  // ----- what a status means -----

  /**
   A status of success needs changed files reported by the last pipeline run, but "pull_request_created" comes with a
   pull request exactly when committing and opening pull requests are both on and the run left changes behind; with
   nothing left to commit the status is the same and nothing was opened.
  */
  lemma {:induction false} PullRequestStatus(s: Session, around: Surroundings, maxRetries: int, p: Completion, fault: nat -> bool)
    ensures var (after, status, git) := Ending(s, around, maxRetries, p, fault);
            var left := LoopRepo(around.attempts, maxRetries, s.repo);
            && (Succeeded(status) <==> git.Some?)
            && (Succeeded(status) ==> LoopFiles(around.attempts, maxRetries).Some? && LoopFiles(around.attempts, maxRetries).value != [])
            && (status == "pull_request_created" ==>
                  && !p.dryRun
                  && (git.value.pullRequest.Some? <==> p.autoCreatePr && p.autoCommit && left.dirty != [])
                  && after.repo.pullRequests == left.pullRequests
                     + if git.value.pullRequest.Some? then [PullRequest(git.value.branch, p.base)] else [])
            && (status == "dry_run_pr_created" ==> p.dryRun && RemoteKept(left, after.repo))
  {
    hide Complete, Do, Runs, LoopFiles, LoopRepo;
    var prepared := Prepared(s, around, p, fault);
    if prepared.Some? {
      var worked := prepared.value.(repo := LoopRepo(around.attempts, maxRetries, prepared.value.repo));
      CompleteResult(worked, p, fault);
      CompleteTells(worked, p, fault);
      CompleteSafe(worked, p, fault);
      SameRepo(around.attempts, maxRetries, prepared.value.repo, s.repo);
    }
  }

  /**
   Which status an execution ends with. A finished handoff is a dry-run success in a dry run and a created pull request
   otherwise; a last run that names no file is escalated when the checkout can be refreshed, and leaves what that gives;
   everything else is a failure. A dry run that cleans up ends on the default branch, without the branch it worked on.
  */
  lemma {:induction false} StatusDecided(s: Session, around: Surroundings, maxRetries: int, p: Completion, fault: nat -> bool)
    ensures var (after, status, git) := Ending(s, around, maxRetries, p, fault);
            var files := LoopFiles(around.attempts, maxRetries);
            && (git.Some? ==> status == (if p.dryRun then "dry_run_pr_created" else "pull_request_created"))
            && (status == "escalated" <==> Prepared(s, around, p, fault).Some? && files == Some([]) && around.refreshedAgain.Some?)
            && (status == "escalated" ==> after.repo == around.refreshedAgain.value)
            && (git.None? && status != "escalated" ==> status == "failed")
            && (status == "dry_run_pr_created" && p.autoCleanup ==>
                  after.repo.head == p.base && git.value.branch !in after.repo.branches)
  {
    hide Complete, Do, Runs, LoopFiles, LoopRepo;
    var prepared := Prepared(s, around, p, fault);
    if prepared.Some? {
      var worked := prepared.value.(repo := LoopRepo(around.attempts, maxRetries, prepared.value.repo));
      CompleteResult(worked, p, fault);
      CompleteLeaves(worked, p, fault);
    }
  }

  /**
   What the attempt loop hands on is its last run's: the run after which none is tried, whichever that is. The files it
   names decide between escalation and handoff, an exception of it fails the execution, and the handoff starts from the
   repository it leaves.
  */
  lemma {:induction false} LastRunDecides(s: Session, around: Surroundings, maxRetries: int, p: Completion, fault: nat -> bool, n: nat)
    requires Prepared(s, around, p, fault).Some? && StopsAfter(around.attempts, maxRetries, n + 1)
    ensures var (after, status, git) := Ending(s, around, maxRetries, p, fault);
            var prepared, last := Prepared(s, around, p, fault).value, around.attempts(n);
            match last
            case AttemptRaises(left) => status == "failed" && after == prepared.(repo := left)
            case Produced(files, _, left) =>
              if files == [] then
                status == (if around.refreshedAgain.Some? then "escalated" else "failed")
              else
                var (handed, r) := Complete(prepared.(repo := left), p, fault);
                after == handed && (git.Some? <==> r.Ok?) && (r.Err? ==> status == "failed") && (r.Ok? ==> git == Some(r.value))
  {
    hide Complete, Do, Runs;
    RunsExact(around.attempts, maxRetries, n + 1);
  }

  lemma {:induction false} SameRepo(attempts: nat -> Attempt, maxRetries: int, a: Repo, b: Repo)
    ensures LoopFiles(attempts, maxRetries).Some? ==> LoopRepo(attempts, maxRetries, a) == LoopRepo(attempts, maxRetries, b)
  {
    hide Runs;
  }

  // ----- a success without a pull request -----

  /** A checkout of the default branch with nothing changed. */
  const CLEAN := Repo("main", Root("0"), map["main" := Root("0")], map["main" := Root("0")], true, [], {}, [])

  /** The same on the issue's branch: what a run leaves that names a file and changes none. */
  const UNCHANGED := Repo("issue", Root("0"), map["main" := Root("0"), "issue" := Root("0")], map["main" := Root("0")], true, [], {}, [])

  const EVERYTHING_ON := Completion("main", "issue", "fix", true, true, true, true, false)

  /**
   Every switch on, nothing failing, and a pipeline run that names a file without leaving a change, as one does whose
   last patch was not applied: the status is "pull_request_created" and there is no pull request.
  */
  lemma {:induction false} StatusWithoutPullRequest(maxRetries: nat)
    ensures var around := Surroundings(3, CLEAN, _ => Produced(["f"], true, UNCHANGED), None);
            var (after, status, git) := Ending(Session(CLEAN, 0), around, maxRetries, EVERYTHING_ON, _ => false);
            && status == "pull_request_created" && git.Some? && git.value.pullRequest == None && git.value.commit == None
            && after.repo.pullRequests == []
  {
    hide Complete;
    var never: nat -> bool := _ => false;
    var attempts: nat -> Attempt := _ => Produced(["f"], true, UNCHANGED);
    assert Runs(attempts, 0, maxRetries) == 1;
    var prepared := Do(Session(CLEAN, 0), CheckoutReset("issue", "main"), never).0;
    NothingToHandOff(prepared.(repo := UNCHANGED), never);
  }

  lemma {:induction false} NothingToHandOff(s: Session, fault: nat -> bool)
    requires s.repo == UNCHANGED && forall n: nat :: !fault(n)
    ensures var (after, r) := Complete(s, EVERYTHING_ON, fault);
            after.repo == UNCHANGED && r == Ok(WorkflowResult("issue", None, false, None, false))
  {
  }
}
