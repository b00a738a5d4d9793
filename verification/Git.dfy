/** Git commands as steps on an abstract repository, any of which may also fail for outside reasons. */
module Git {
  import opened Results
  import opened Text

  datatype Commit = Root(id: string) | Commit(parent: Commit, message: string, files: seq<string>)

  datatype PullRequest = PullRequest(head: string, base: string)

  /**
   head is the checked-out branch, or "" when HEAD is detached at a commit; dirty lists the changed files in the order
   of the status report, and staged names those in the index.
  */
  datatype Repo = Repo(
    head: string,
    detached: Commit,
    branches: map<string, Commit>,
    remote: map<string, Commit>,
    hasRemote: bool,
    dirty: seq<string>,
    staged: set<string>,
    pullRequests: seq<PullRequest>)

  datatype GitError = GitFailed | RefusedDefaultBranch

  datatype Command =
    | ShowCurrent
    | Status
    | CheckoutReset(branch: string, base: string)
    | Add(files: seq<string>)
    | MakeCommit(message: string)
    | RevParseHead
    | RemoteUrl
    | Verify(ref: string)
    | Push(pushed: string)
    | Checkout(target: string)
    | Delete(deleted: string)
    | OpenPullRequest(pr: PullRequest, dryRun: bool)

  function HeadCommit(r: Repo): Option<Commit> {
    if r.head == "" then Some(r.detached) else if r.head in r.branches then Some(r.branches[r.head]) else None
  }

  /** The changed files that are in the index, or that are not. */
  function Changes(dirty: seq<string>, staged: set<string>, inside: bool): (r: seq<string>)
    ensures forall f :: f in r <==> f in dirty && (f in staged) == inside
  {
    if dirty == [] then []
    else (if (dirty[0] in staged) == inside then [dirty[0]] else []) + Changes(dirty[1..], staged, inside)
  }

  /** Once every changed file is staged, the staged changes are all changes and none is left outside. */
  lemma {:induction false} AllStaged(dirty: seq<string>, staged: set<string>)
    requires forall f :: f in dirty ==> f in staged
    ensures Changes(dirty, staged, true) == dirty && Changes(dirty, staged, false) == []
  {
    if dirty == [] {
    } else {
      assert dirty == [dirty[0]] + dirty[1..];
      AllStaged(dirty[1..], staged);
    }
  }

  /** The command's effect when nothing outside interferes; None when git refuses it. */
  function Effect(r: Repo, c: Command): Option<Repo> {
    match c
    case ShowCurrent => Some(r)
    case Status => Some(r)
    case CheckoutReset(branch, base) =>
      if branch == "" || base !in r.branches then None
      else Some(r.(branches := r.branches[branch := r.branches[base]], head := branch))
    case Add(files) =>
      Some(r.(staged := r.staged + set f | f in r.dirty && (files == [] || f in files)))
    case MakeCommit(message) =>
      var files := Changes(r.dirty, r.staged, true);
      if files == [] || HeadCommit(r).None? then None
      else
        var made := Commit(HeadCommit(r).value, message, files);
        var clean := r.(dirty := Changes(r.dirty, r.staged, false), staged := {});
        Some(if r.head == "" then clean.(detached := made) else clean.(branches := r.branches[r.head := made]))
    case RevParseHead => if HeadCommit(r).Some? then Some(r) else None
    case RemoteUrl => if r.hasRemote then Some(r) else None
    case Verify(ref) => if ref != "" && ref in r.branches then Some(r) else None
    case Push(b) =>
      if !r.hasRemote || b == "" || b !in r.branches then None else Some(r.(remote := r.remote[b := r.branches[b]]))
    case Checkout(b) =>
      if b == "" then None
      else if b in r.branches then Some(r.(head := b))
      else if b in r.remote then Some(r.(head := b, branches := r.branches[b := r.remote[b]]))
      else None
    case Delete(b) =>
      if b !in r.branches || b == r.head then None else Some(r.(branches := r.branches - {b}))
    case OpenPullRequest(pr, dryRun) =>
      if Strip(pr.head) == "" || Strip(pr.base) == "" then None
      else if dryRun then Some(r) else Some(r.(pullRequests := r.pullRequests + [pr]))
  }

  /** A repository and the number of commands it has been given. */
  datatype Session = Session(repo: Repo, calls: nat)

  /** fault(n): the n-th command fails for outside reasons and changes nothing. */
  function Do(s: Session, c: Command, fault: nat -> bool): (Session, bool) {
    var next := Session(s.repo, s.calls + 1);
    if fault(s.calls) then (next, false)
    else match Effect(s.repo, c)
      case Some(r) => (next.(repo := r), true)
      case None => (next, false)
  }

  function DoAll(s: Session, cs: seq<Command>, fault: nat -> bool): (Session, bool)
    decreases |cs|
  {
    if cs == [] then (s, true)
    else
      var (next, ok) := Do(s, cs[0], fault);
      if ok then DoAll(next, cs[1..], fault) else (next, false)
  }

  // ----- completing an issue -----

  /** Settings of one completion: the branch name and commit message the services generate, and the switches. */
  datatype Completion = Completion(
    base: string,
    issueBranch: string,
    message: string,
    autoCommit: bool,
    autoPush: bool,
    autoCreatePr: bool,
    autoCleanup: bool,
    dryRun: bool)

  datatype WorkflowResult = WorkflowResult(branch: string, commit: Option<Commit>, pushed: bool, pullRequest: Option<PullRequest>, dryRun: bool)

  type Outcome = (Session, Result<WorkflowResult, GitError>)

  function Fail(s: Session): Outcome {
    (s, Err(GitFailed))
  }

  function PushCommands(branch: string, dryRun: bool): seq<Command> {
    if dryRun then [RemoteUrl, Verify(branch)] else [Push(branch)]
  }

  function CommitCommands(files: seq<string>, message: string): seq<Command> {
    [Add(files), MakeCommit(message), RevParseHead]
  }

  /** Both procedures, from the question for the current branch to the result. */
  function Complete(s: Session, p: Completion, fault: nat -> bool): Outcome {
    var (s1, ok1) := Do(s, ShowCurrent, fault);
    if !ok1 then Fail(s1)
    else if s1.repo.head != p.base then OnBranch(s1, s1.repo.head, p, fault)
    else
      var (s2, ok2) := Do(s1, CheckoutReset(p.issueBranch, p.base), fault);
      if !ok2 then Fail(s2)
      else if p.issueBranch == p.base then (s2, Err(RefusedDefaultBranch))
      else OnBranch(s2, p.issueBranch, p, fault)
  }

  function OnBranch(s: Session, branch: string, p: Completion, fault: nat -> bool): Outcome {
    var (s1, ok1) := Do(s, Status, fault);
    if !ok1 then Fail(s1)
    else if !p.autoCommit || s1.repo.dirty == [] then Publish(s1, branch, None, p, fault)
    else
      var (s2, ok2) := DoAll(s1, CommitCommands(s1.repo.dirty, p.message), fault);
      if !ok2 then Fail(s2) else Publish(s2, branch, HeadCommit(s2.repo), p, fault)
  }

  function Publish(s: Session, branch: string, commit: Option<Commit>, p: Completion, fault: nat -> bool): Outcome {
    var pushes := p.autoPush && commit.Some?;
    var (s1, ok1) := if pushes then DoAll(s, PushCommands(branch, p.dryRun), fault) else (s, true);
    if !ok1 then Fail(s1)
    else
      var opens := p.autoCreatePr && (commit.Some? || p.dryRun);
      var pr := PullRequest(branch, p.base);
      var (s2, ok2) := if opens then Do(s1, OpenPullRequest(pr, p.dryRun), fault) else (s1, true);
      if !ok2 then Fail(s2)
      else
        var cleans := p.autoCleanup && p.dryRun && branch != p.base;
        var (s3, ok3) := if cleans then DoAll(s2, [Checkout(p.base), Delete(branch)], fault) else (s2, true);
        if !ok3 then Fail(s3)
        else (s3, Ok(WorkflowResult(branch, commit, pushes, if opens then Some(pr) else None, p.dryRun)))
  }

  // ----- what completing an issue can and cannot change -----

  /** The default branch is where it was: locally unless it did not exist there, remotely always. */
  ghost predicate BaseKept(before: Repo, after: Repo, base: string) {
    && (base in before.branches ==> base in after.branches && after.branches[base] == before.branches[base])
    && (base in after.branches && base !in before.branches ==> base in before.remote && after.branches[base] == before.remote[base])
    && (base in before.remote <==> base in after.remote)
    && (base in before.remote ==> after.remote[base] == before.remote[base])
  }

  /** Commands that do not write the given branch. */
  predicate Spares(r: Repo, c: Command, base: string) {
    match c
    case CheckoutReset(b, from) => b != base || from == base
    case MakeCommit(_) => r.head != base
    case Push(b) => b != base
    case Delete(b) => b != base
    case _ => true
  }

  lemma {:induction false} DoKeepsBase(s: Session, c: Command, fault: nat -> bool, before: Repo, base: string)
    requires Spares(s.repo, c, base) && BaseKept(before, s.repo, base)
    ensures BaseKept(before, Do(s, c, fault).0.repo, base)
  {
  }

  /** The switches hold: nothing remote changes in a dry run. */
  ghost predicate RemoteKept(before: Repo, after: Repo) {
    after.remote == before.remote && after.pullRequests == before.pullRequests
  }

  predicate LocalOnly(c: Command) {
    !c.Push? && (c.OpenPullRequest? ==> c.dryRun)
  }

  lemma {:induction false} DoKeepsRemote(s: Session, c: Command, fault: nat -> bool, before: Repo)
    requires LocalOnly(c) && RemoteKept(before, s.repo)
    ensures RemoteKept(before, Do(s, c, fault).0.repo)
  {
  }

  /** One command keeps the default branch, and in a dry run the remote. */
  ghost predicate Safe(before: Repo, s: Session, p: Completion) {
    BaseKept(before, s.repo, p.base) && (p.dryRun ==> RemoteKept(before, s.repo))
  }

  lemma {:induction false} DoSafe(s: Session, c: Command, fault: nat -> bool, before: Repo, p: Completion)
    requires Safe(before, s, p) && Spares(s.repo, c, p.base) && (p.dryRun ==> LocalOnly(c))
    ensures Safe(before, Do(s, c, fault).0, p)
  {
    DoKeepsBase(s, c, fault, before, p.base);
    if p.dryRun {
      DoKeepsRemote(s, c, fault, before);
    }
  }

  lemma {:induction false} OneStep(s: Session, c: Command, fault: nat -> bool)
    ensures DoAll(s, [c], fault) == Do(s, c, fault)
  {
    hide Do;
    var (next, ok) := Do(s, c, fault);
    assert [c][1..] == [] && DoAll(next, [], fault) == (next, true);
  }

  lemma {:induction false} TwoSteps(s: Session, c: Command, d: Command, fault: nat -> bool)
    ensures DoAll(s, [c, d], fault) == var (s1, ok1) := Do(s, c, fault); if ok1 then Do(s1, d, fault) else (s1, false)
  {
    hide Do;
    assert [c, d][1..] == [d];
    OneStep(Do(s, c, fault).0, d, fault);
  }

  lemma {:induction false} CommitSteps(s: Session, files: seq<string>, message: string, fault: nat -> bool)
    ensures DoAll(s, CommitCommands(files, message), fault)
         == var (s1, ok1) := Do(s, Add(files), fault);
            if !ok1 then (s1, false)
            else
              var (s2, ok2) := Do(s1, MakeCommit(message), fault);
              if !ok2 then (s2, false) else Do(s2, RevParseHead, fault)
  {
    hide Do;
    assert CommitCommands(files, message)[1..] == [MakeCommit(message), RevParseHead];
    TwoSteps(Do(s, Add(files), fault).0, MakeCommit(message), RevParseHead, fault);
  }

  /**
   Staging and committing: the commit holds exactly the changed files that were named, or all when none is named, and
   those already staged; the other changes stay behind.
  */
  lemma {:induction false} CommitsStaged(s: Session, files: seq<string>, message: string, fault: nat -> bool)
    ensures var (after, ok) := DoAll(s, CommitCommands(files, message), fault);
            ok ==>
              var commit := HeadCommit(after.repo);
              && commit.Some? && commit.value.Commit? && HeadCommit(s.repo) == Some(commit.value.parent)
              && commit.value.message == message && commit.value.files != []
              && (forall f :: f in commit.value.files
                              <==> f in s.repo.dirty && (f in s.repo.staged || files == [] || f in files))
              && (forall f :: f in after.repo.dirty <==> f in s.repo.dirty && f !in commit.value.files)
              && after.repo.staged == {}
  {
    hide DoAll, Changes;
    CommitSteps(s, files, message, fault);
  }

  /** Staging the reported changes and committing commits exactly those, in the order reported, and leaves none. */
  lemma {:induction false} CommitsChanges(s: Session, message: string, fault: nat -> bool)
    requires s.repo.dirty != []
    ensures var (after, ok) := DoAll(s, CommitCommands(s.repo.dirty, message), fault);
            ok ==>
              && HeadCommit(s.repo).Some?
              && HeadCommit(after.repo) == Some(Commit(HeadCommit(s.repo).value, message, s.repo.dirty))
              && after.repo.dirty == [] && after.repo.staged == {} && after.repo.head == s.repo.head
              && after.repo.remote == s.repo.remote && after.repo.pullRequests == s.repo.pullRequests
  {
    hide DoAll;
    CommitSteps(s, s.repo.dirty, message, fault);
    var staged := Do(s, Add(s.repo.dirty), fault).0.repo.staged;
    if Do(s, Add(s.repo.dirty), fault).1 {
      AllStaged(s.repo.dirty, staged);
    }
  }

  lemma {:induction false} PublishSafe(s: Session, branch: string, commit: Option<Commit>, p: Completion, fault: nat -> bool, before: Repo)
    requires Safe(before, s, p) && branch != p.base
    ensures Safe(before, Publish(s, branch, commit, p, fault).0, p)
  {
    hide Safe, Effect, Do;
    var pushes := p.autoPush && commit.Some?;
    var s1 := if pushes then DoAll(s, PushCommands(branch, p.dryRun), fault).0 else s;
    TwoSteps(s, RemoteUrl, Verify(branch), fault);
    OneStep(s, Push(branch), fault);
    DoSafe(s, RemoteUrl, fault, before, p);
    DoSafe(Do(s, RemoteUrl, fault).0, Verify(branch), fault, before, p);
    if !p.dryRun {
      DoSafe(s, Push(branch), fault, before, p);
    }
    assert Safe(before, s1, p);
    var opens := p.autoCreatePr && (commit.Some? || p.dryRun);
    var open := OpenPullRequest(PullRequest(branch, p.base), p.dryRun);
    DoSafe(s1, open, fault, before, p);
    var s2 := if opens then Do(s1, open, fault).0 else s1;
    TwoSteps(s2, Checkout(p.base), Delete(branch), fault);
    DoSafe(s2, Checkout(p.base), fault, before, p);
    DoSafe(Do(s2, Checkout(p.base), fault).0, Delete(branch), fault, before, p);
  }

  lemma {:induction false} OnBranchSafe(s: Session, branch: string, p: Completion, fault: nat -> bool, before: Repo)
    requires Safe(before, s, p) && branch != p.base && s.repo.head == branch
    ensures Safe(before, OnBranch(s, branch, p, fault).0, p)
  {
    hide Safe, Publish, DoAll, CommitCommands;
    var s1 := Do(s, Status, fault).0;
    DoSafe(s, Status, fault, before, p);
    PublishSafe(s1, branch, None, p, fault, before);
    var add, commit := Add(s1.repo.dirty), MakeCommit(p.message);
    CommitSteps(s1, s1.repo.dirty, p.message, fault);
    DoSafe(s1, add, fault, before, p);
    var s2 := Do(s1, add, fault).0;
    assert s2.repo == s.repo.(staged := s2.repo.staged);
    DoSafe(s2, commit, fault, before, p);
    var s3 := Do(s2, commit, fault).0;
    DoSafe(s3, RevParseHead, fault, before, p);
    var s4 := Do(s3, RevParseHead, fault).0;
    PublishSafe(s4, branch, HeadCommit(s4.repo), p, fault, before);
  }

  /**
   Whatever the settings, the repository and the failures: completing an issue never moves the default branch, locally
   or remotely, and a dry run changes no remote branch and opens no pull request.
  */
  lemma {:induction false} CompleteSafe(s: Session, p: Completion, fault: nat -> bool)
    ensures var after := Complete(s, p, fault).0.repo;
            BaseKept(s.repo, after, p.base) && (p.dryRun ==> RemoteKept(s.repo, after))
  {
    hide OnBranch;
    var s1 := Do(s, ShowCurrent, fault).0;
    assert s1.repo == s.repo;
    if s1.repo.head != p.base {
      OnBranchSafe(s1, s1.repo.head, p, fault, s.repo);
    } else {
      var reset := CheckoutReset(p.issueBranch, p.base);
      DoSafe(s1, reset, fault, s.repo, p);
      var (s2, ok2) := Do(s1, reset, fault);
      if ok2 && p.issueBranch != p.base {
        OnBranchSafe(s2, p.issueBranch, p, fault, s.repo);
      }
    }
  }

  /**
   What a result means: a push implies a commit; a pull request implies a commit or a dry run; the commit is made
   exactly when committing is on and there are changes, and it holds exactly the changed files.
  */
  lemma {:induction false} CompleteResult(s: Session, p: Completion, fault: nat -> bool)
    ensures var r := Complete(s, p, fault).1;
            r.Ok? ==>
              && r.value.branch != p.base && r.value.dryRun == p.dryRun
              && (r.value.commit.Some? <==> p.autoCommit && s.repo.dirty != [])
              && (r.value.commit.Some? ==> r.value.commit.value.Commit? && r.value.commit.value.files == s.repo.dirty
                                           && r.value.commit.value.message == p.message)
              && (r.value.pushed <==> p.autoPush && r.value.commit.Some?)
              && (r.value.pullRequest.Some? <==> p.autoCreatePr && (r.value.commit.Some? || p.dryRun))
              && (r.value.pullRequest.Some? ==> r.value.pullRequest.value == PullRequest(r.value.branch, p.base))
  {
    hide Publish;
    var s1 := Do(s, ShowCurrent, fault).0;
    if s1.repo.head != p.base {
      OnBranchResult(s1, s1.repo.head, p, fault);
    } else {
      var (s2, ok2) := Do(s1, CheckoutReset(p.issueBranch, p.base), fault);
      if ok2 && p.issueBranch != p.base {
        OnBranchResult(s2, p.issueBranch, p, fault);
      }
    }
  }

  lemma {:induction false} OnBranchResult(s: Session, branch: string, p: Completion, fault: nat -> bool)
    requires s.repo.head == branch
    ensures var r := OnBranch(s, branch, p, fault).1;
            r.Ok? ==>
              && r.value.branch == branch && r.value.dryRun == p.dryRun
              && (r.value.commit.Some? <==> p.autoCommit && s.repo.dirty != [])
              && (r.value.commit.Some? ==> r.value.commit.value.Commit? && r.value.commit.value.files == s.repo.dirty
                                           && r.value.commit.value.message == p.message)
              && (r.value.pushed <==> p.autoPush && r.value.commit.Some?)
              && (r.value.pullRequest.Some? <==> p.autoCreatePr && (r.value.commit.Some? || p.dryRun))
              && (r.value.pullRequest.Some? ==> r.value.pullRequest.value == PullRequest(branch, p.base))
  {
    hide DoAll, PushCommands, CommitCommands;
    var s1 := Do(s, Status, fault).0;
    if s1.repo.dirty != [] {
      CommitsChanges(s1, p.message, fault);
    }
  }

  /** What a publishing run leaves in the repository: the pull requests it opened, and its commit where it says. */
  ghost predicate Tells(before: Repo, after: Repo, r: WorkflowResult, p: Completion) {
    && after.pullRequests == before.pullRequests + (if !p.dryRun && r.pullRequest.Some? then [r.pullRequest.value] else [])
    && (!p.dryRun && r.commit.Some? ==> HeadCommit(after) == r.commit)
    && (!p.dryRun && r.pushed ==> r.commit.Some? && r.branch in after.remote && after.remote[r.branch] == r.commit.value)
    && (!p.dryRun && !r.pushed ==> after.remote == before.remote)
  }

  lemma {:induction false} PushEffect(s: Session, branch: string, dryRun: bool, fault: nat -> bool)
    ensures var (s1, ok) := DoAll(s, PushCommands(branch, dryRun), fault);
            && (dryRun ==> s1.repo == s.repo)
            && (!dryRun && ok ==> branch in s.repo.branches && branch != ""
                                  && s1.repo == s.repo.(remote := s.repo.remote[branch := s.repo.branches[branch]]))
  {
    hide DoAll;
    OneStep(s, Push(branch), fault);
    TwoSteps(s, RemoteUrl, Verify(branch), fault);
  }

  lemma {:induction false} CleanupEffect(s: Session, base: string, branch: string, fault: nat -> bool)
    ensures RemoteKept(s.repo, DoAll(s, [Checkout(base), Delete(branch)], fault).0.repo)
  {
    hide DoAll;
    TwoSteps(s, Checkout(base), Delete(branch), fault);
  }

  lemma {:induction false} PublishTells(s: Session, branch: string, commit: Option<Commit>, p: Completion, fault: nat -> bool)
    requires s.repo.head == branch && (commit.Some? ==> HeadCommit(s.repo) == commit)
    ensures var (after, r) := Publish(s, branch, commit, p, fault);
            r.Ok? ==> Tells(s.repo, after.repo, r.value, p)
  {
    hide DoAll, PushCommands;
    PushEffect(s, branch, p.dryRun, fault);
    var pushes := p.autoPush && commit.Some?;
    var s1 := if pushes then DoAll(s, PushCommands(branch, p.dryRun), fault).0 else s;
    var opens := p.autoCreatePr && (commit.Some? || p.dryRun);
    var s2 := if opens then Do(s1, OpenPullRequest(PullRequest(branch, p.base), p.dryRun), fault).0 else s1;
    CleanupEffect(s2, p.base, branch, fault);
  }

  /** The result tells the truth about the repository it leaves, whatever failed or was already there. */
  lemma {:induction false} CompleteTells(s: Session, p: Completion, fault: nat -> bool)
    ensures var (after, r) := Complete(s, p, fault);
            r.Ok? ==> Tells(s.repo, after.repo, r.value, p)
  {
    hide Publish;
    var s1 := Do(s, ShowCurrent, fault).0;
    if s1.repo.head != p.base {
      OnBranchTells(s1, s1.repo.head, p, fault);
    } else {
      var (s2, ok2) := Do(s1, CheckoutReset(p.issueBranch, p.base), fault);
      if ok2 && p.issueBranch != p.base {
        OnBranchTells(s2, p.issueBranch, p, fault);
      }
    }
  }

  lemma {:induction false} OnBranchTells(s: Session, branch: string, p: Completion, fault: nat -> bool)
    requires s.repo.head == branch
    ensures var (after, r) := OnBranch(s, branch, p, fault);
            r.Ok? ==> Tells(s.repo, after.repo, r.value, p)
  {
    hide Publish, DoAll, CommitCommands, Tells;
    var s1 := Do(s, Status, fault).0;
    assert s1.repo == s.repo;
    if !p.autoCommit || s1.repo.dirty == [] {
      PublishTells(s1, branch, None, p, fault);
    } else {
      CommitsChanges(s1, p.message, fault);
      var (s2, ok2) := DoAll(s1, CommitCommands(s1.repo.dirty, p.message), fault);
      if ok2 {
        PublishTells(s2, branch, HeadCommit(s2.repo), p, fault);
        var (after, r) := Publish(s2, branch, HeadCommit(s2.repo), p, fault);
        if r.Ok? {
          TellsFromEarlier(s.repo, s2.repo, after.repo, r.value, p);
        }
      }
    }
  }

  // ----- where a completion leaves the checkout -----

  /** A finished completion ends on its branch, or, after the cleanup of a dry run, on the default branch without it. */
  ghost predicate LeftOn(after: Repo, branch: string, p: Completion) {
    if p.autoCleanup && p.dryRun then after.head == p.base && branch !in after.branches && p.base in after.branches
    else after.head == branch
  }

  /** Only the branch worked on and the default branch can have changed. */
  ghost predicate OthersKept(before: Repo, after: Repo, branch: string, base: string) {
    forall b :: b != branch && b != base ==>
      (b in after.branches <==> b in before.branches) && (b in before.branches ==> after.branches[b] == before.branches[b])
  }

  lemma {:induction false} CleanupLeaves(s: Session, base: string, branch: string, fault: nat -> bool)
    requires branch != base
    ensures var (after, ok) := DoAll(s, [Checkout(base), Delete(branch)], fault);
            && (ok ==> after.repo.head == base && base in after.repo.branches && branch !in after.repo.branches)
            && OthersKept(s.repo, after.repo, branch, base)
  {
    hide DoAll;
    TwoSteps(s, Checkout(base), Delete(branch), fault);
  }

  lemma {:induction false} PushLeaves(s: Session, branch: string, dryRun: bool, fault: nat -> bool)
    ensures var after := DoAll(s, PushCommands(branch, dryRun), fault).0.repo;
            after.head == s.repo.head && after.branches == s.repo.branches
  {
    hide DoAll;
    OneStep(s, Push(branch), fault);
    TwoSteps(s, RemoteUrl, Verify(branch), fault);
  }

  lemma {:induction false} PublishLeaves(s: Session, branch: string, commit: Option<Commit>, p: Completion, fault: nat -> bool)
    requires s.repo.head == branch && branch != p.base
    ensures var (after, r) := Publish(s, branch, commit, p, fault);
            r.Ok? ==> LeftOn(after.repo, branch, p) && OthersKept(s.repo, after.repo, branch, p.base)
  {
    hide DoAll, PushCommands;
    PushLeaves(s, branch, p.dryRun, fault);
    var pushes := p.autoPush && commit.Some?;
    var s1 := if pushes then DoAll(s, PushCommands(branch, p.dryRun), fault).0 else s;
    var opens := p.autoCreatePr && (commit.Some? || p.dryRun);
    var s2 := if opens then Do(s1, OpenPullRequest(PullRequest(branch, p.base), p.dryRun), fault).0 else s1;
    CleanupLeaves(s2, p.base, branch, fault);
  }

  lemma {:induction false} CommitLeaves(s: Session, message: string, fault: nat -> bool)
    requires s.repo.dirty != []
    ensures var (after, ok) := DoAll(s, CommitCommands(s.repo.dirty, message), fault);
            ok ==> after.repo.head == s.repo.head && OthersKept(s.repo, after.repo, s.repo.head, s.repo.head)
  {
    hide DoAll, Changes;
    CommitSteps(s, s.repo.dirty, message, fault);
  }

  lemma {:induction false} OnBranchLeaves(s: Session, branch: string, p: Completion, fault: nat -> bool)
    requires s.repo.head == branch && branch != p.base
    ensures var (after, r) := OnBranch(s, branch, p, fault);
            r.Ok? ==> LeftOn(after.repo, branch, p) && OthersKept(s.repo, after.repo, branch, p.base)
  {
    hide DoAll, Publish, CommitCommands, LeftOn;
    var s1 := Do(s, Status, fault).0;
    PublishLeaves(s1, branch, None, p, fault);
    if s1.repo.dirty != [] {
      CommitLeaves(s1, p.message, fault);
      var s2 := DoAll(s1, CommitCommands(s1.repo.dirty, p.message), fault).0;
      if s2.repo.head == branch {
        PublishLeaves(s2, branch, HeadCommit(s2.repo), p, fault);
      }
    }
  }

  /** Without a remote nothing is pushed, and a dry run that would push says so: no completion with a push ends well. */
  lemma {:induction false} PushNeedsRemote(s: Session, p: Completion, fault: nat -> bool)
    ensures var r := Complete(s, p, fault).1; r.Ok? && r.value.pushed ==> s.repo.hasRemote
  {
    hide OnBranch, Strip;
    var s1 := Do(s, ShowCurrent, fault).0;
    if s1.repo.head != p.base {
      OnBranchNeedsRemote(s1, s1.repo.head, p, fault);
    } else {
      var (s2, ok2) := Do(s1, CheckoutReset(p.issueBranch, p.base), fault);
      if ok2 && p.issueBranch != p.base {
        OnBranchNeedsRemote(s2, p.issueBranch, p, fault);
      }
    }
  }

  lemma {:induction false} OnBranchNeedsRemote(s: Session, branch: string, p: Completion, fault: nat -> bool)
    ensures var r := OnBranch(s, branch, p, fault).1; r.Ok? && r.value.pushed ==> s.repo.hasRemote
  {
    hide DoAll, PushCommands, Changes, Strip;
    var s1 := Do(s, Status, fault).0;
    CommitSteps(s1, s1.repo.dirty, p.message, fault);
    var s2 := DoAll(s1, CommitCommands(s1.repo.dirty, p.message), fault).0;
    PushNeeds(s1, branch, p.dryRun, fault);
    PushNeeds(s2, branch, p.dryRun, fault);
  }

  lemma {:induction false} PushNeeds(s: Session, branch: string, dryRun: bool, fault: nat -> bool)
    ensures DoAll(s, PushCommands(branch, dryRun), fault).1 ==> s.repo.hasRemote && branch in s.repo.branches
  {
    hide DoAll;
    OneStep(s, Push(branch), fault);
    TwoSteps(s, RemoteUrl, Verify(branch), fault);
  }

  /**
   Which branch a finished completion works on, and where it leaves the checkout: the branch checked out, or the issue's
   branch when that is the default one; afterwards that branch is still checked out, except that the cleanup of a dry run
   goes back to the default branch and deletes it. No other branch is made, moved or deleted.
  */
  lemma {:induction false} CompleteLeaves(s: Session, p: Completion, fault: nat -> bool)
    ensures var (after, r) := Complete(s, p, fault);
            r.Ok? ==>
              && r.value.branch == (if s.repo.head != p.base then s.repo.head else p.issueBranch)
              && LeftOn(after.repo, r.value.branch, p)
              && OthersKept(s.repo, after.repo, r.value.branch, p.base)
  {
    hide OnBranch, LeftOn;
    CompleteResult(s, p, fault);
    var s1 := Do(s, ShowCurrent, fault).0;
    if s1.repo.head != p.base {
      OnBranchLeaves(s1, s1.repo.head, p, fault);
      OnBranchResult(s1, s1.repo.head, p, fault);
    } else {
      var (s2, ok2) := Do(s1, CheckoutReset(p.issueBranch, p.base), fault);
      if ok2 && p.issueBranch != p.base {
        OnBranchLeaves(s2, p.issueBranch, p, fault);
        OnBranchResult(s2, p.issueBranch, p, fault);
      }
    }
  }

  /** Only remote branches and pull requests of the earlier repository matter for a result. */
  lemma {:induction false} TellsFromEarlier(earlier: Repo, before: Repo, after: Repo, r: WorkflowResult, p: Completion)
    requires earlier.remote == before.remote && earlier.pullRequests == before.pullRequests
    requires Tells(before, after, r, p)
    ensures Tells(earlier, after, r, p)
  {
  }
}
