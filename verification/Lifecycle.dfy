/** What a worker run does to the queue, the set of issues in progress and the processed history. */
module Lifecycle {
  import opened Results
  import opened Text
  import opened Issues
  import opened QueueSpec

  type History = map<string, map<string, Json>>

  datatype State = State(queue: Items, inProgress: set<string>, processed: History)

  // ----- polling -----

  datatype Repository = Repository(owner: string, name: string, defaultBranch: string) {
    function FullName(): string {
      owner + "/" + name
    }
  }

  datatype GitHubIssue = GitHubIssue(
    number: int,
    title: string,
    state: string,
    body: Option<string>,
    htmlUrl: string,
    labels: seq<string>,
    comments: int,
    userLogin: Option<string>,
    pullRequest: bool,
    seenAt: Timestamp)

  /** What listing a repository's open issues gives: any issues at all, or an exception. */
  datatype Response = Listed(issues: seq<GitHubIssue>) | Raises

  function TextOr(t: Option<string>): string {
    match t case Some(s) => s case None => ""
  }

  function ToWorkerIssue(repository: Repository, gi: GitHubIssue): WorkerIssue {
    WorkerIssue(repository.FullName(), gi.number, Some(gi.title), Some(gi.htmlUrl), gi.labels, 0, gi.seenAt,
                map["body" := JString(TextOr(gi.body)), "comments" := JInt(gi.comments), "author" := JString(TextOr(gi.userLogin))])
  }

  predicate Skips(st: State, key: string) {
    key in st.processed || key in st.inProgress || HasKey(st.queue, key)
  }

  predicate Ignored(gi: GitHubIssue) {
    Lower(gi.state) != "open" || gi.pullRequest
  }

  /** The items one repository's listing adds to the queue, in order. */
  function Unseen(st: State, repository: Repository, issues: seq<GitHubIssue>): Items
    decreases |issues|
  {
    if issues == [] then []
    else
      var item := ToWorkerIssue(repository, issues[0]);
      if Ignored(issues[0]) || Skips(st, item.Key()) then Unseen(st, repository, issues[1..])
      else [item] + Unseen(Queued(st, [item]), repository, issues[1..])
  }

  function Queued(st: State, added: Items): State {
    st.(queue := st.queue + added)
  }

  lemma {:induction false} QueuedTwice(st: State, a: Items, b: Items)
    ensures Queued(Queued(st, a), b) == Queued(st, a + b)
  {
    assert st.queue + a + b == st.queue + (a + b);
  }

  datatype PollResult = PollResult(added: Items, raised: bool)

  /** A poll visits the repositories in order and ends at the first one whose listing raises. */
  function Poll(st: State, repositories: seq<Repository>, responses: seq<Response>): PollResult
    requires |repositories| == |responses|
    decreases |responses|
  {
    if responses == [] then PollResult([], false)
    else if responses[0].Raises? then PollResult([], true)
    else
      var added := Unseen(st, repositories[0], responses[0].issues);
      var rest := Poll(Queued(st, added), repositories[1..], responses[1..]);
      PollResult(added + rest.added, rest.raised)
  }

  // ----- executing one issue -----

  /** How the controller's work on one issue ends. */
  datatype Outcome = Returned(succeeded: bool, status: string) | Raised(error: string)

  predicate ShouldRetry(status: string, attempts: int, maxRetries: int) {
    attempts < maxRetries && status !in {"retry_or_escalate", "escalated"}
  }

  predicate Requeues(issue: WorkerIssue, outcome: Outcome, maxRetries: int) {
    match outcome
    case Returned(succeeded, status) => !succeeded && ShouldRetry(status, issue.attempts, maxRetries)
    case Raised(_) => issue.attempts < maxRetries
  }

  function Begin(st: State, issue: WorkerIssue): State {
    st.(inProgress := st.inProgress + {issue.Key()})
  }

  function End(st: State, issue: WorkerIssue, outcome: Outcome, maxRetries: int, now: Timestamp): State {
    var st1 :=
      if Requeues(issue, outcome, maxRetries) then st.(queue := Enqueued(st.queue, Retried(issue, now)))
      else if outcome.Returned? then st.(processed := st.processed[issue.Key() := map["status" := JString(outcome.status)]])
      else st;
    st1.(inProgress := st1.inProgress - {issue.Key()})
  }

  function Execute(st: State, issue: WorkerIssue, outcome: Outcome, maxRetries: int, now: Timestamp): State {
    End(Begin(st, issue), issue, outcome, maxRetries, now)
  }

  // ----- one event of a run -----

  /**
   A scheduler tick, with what polling returns and how the execution it may start ends, or an operator's dispatch
   of a queued key.
  */
  datatype Event =
    | Tick(paused: bool, responses: seq<Response>, outcome: Outcome, now: Timestamp)
    | Dispatch(key: string, outcome: Outcome, now: Timestamp)

  /** Afterwards: the new state, what polling queued, what was executed, and whether the call raised. */
  datatype Effect = Effect(next: State, added: Items, executed: Items, raised: bool)

  function DrainOne(st: State, added: Items, outcome: Outcome, maxRetries: int, now: Timestamp): Effect {
    if st.queue == [] then Effect(st, added, [], false)
    else
      var issue := st.queue[0];
      Effect(Execute(st.(queue := st.queue[1..]), issue, outcome, maxRetries, now), added, [issue], outcome.Raised?)
  }

  function Step(st: State, repositories: seq<Repository>, maxRetries: int, e: Event): Effect
    requires e.Tick? ==> |e.responses| == |repositories|
  {
    match e
    case Tick(paused, responses, outcome, now) =>
      if paused then Effect(st, [], [], false)
      else
        var poll := Poll(st, repositories, responses);
        if poll.raised then Effect(Queued(st, poll.added), poll.added, [], true)
        else DrainOne(Queued(st, poll.added), poll.added, outcome, maxRetries, now)
    case Dispatch(key, outcome, now) =>
      match IndexOf(st.queue, key)
      case None => Effect(st, [], [], true)
      case Some(i) =>
        Effect(Execute(st.(queue := Without(st.queue, key)), st.queue[i], outcome, maxRetries, now),
               [], [st.queue[i]], outcome.Raised?)
  }

  predicate EventsFit(repositories: seq<Repository>, es: seq<Event>) {
    forall i :: 0 <= i < |es| ==> es[i].Tick? ==> |es[i].responses| == |repositories|
  }

  /** A whole run: the final state, everything queued by polls and everything executed, both in order. */
  datatype Trace = Trace(final: State, added: Items, executed: Items)

  function Run(st: State, repositories: seq<Repository>, maxRetries: int, es: seq<Event>): Trace
    requires EventsFit(repositories, es)
    decreases |es|
  {
    if es == [] then Trace(st, [], [])
    else
      var first := Step(st, repositories, maxRetries, es[0]);
      var rest := Run(first.next, repositories, maxRetries, es[1..]);
      Trace(rest.final, first.added + rest.added, first.executed + rest.executed)
  }
}
