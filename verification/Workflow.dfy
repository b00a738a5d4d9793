/** Workflow stages and the immutable execution context. */
module Workflow {
  import opened Results
  import opened Text

  datatype Stage =
    | ReceiveRepository | ReceiveIssue | UnderstandIssue | CollectContext | RepositorySearch
    | ReadRelevantFiles | AnalyzeRootCause | CreateEngineeringPlan | GeneratePatch | ApplyChanges
    | Validate | RunTests | DecisionPoint | Retry | Escalate | Review | Completed | Failed | Cancelled

  datatype WorkflowState =
    | Created | Initializing | Running | Waiting | Retrying | Escalating | StateCompleted | StateFailed | StateCancelled

  const DEFAULT_STAGE_ORDER: seq<Stage> := [
    ReceiveRepository, ReceiveIssue, UnderstandIssue, CollectContext, RepositorySearch,
    ReadRelevantFiles, AnalyzeRootCause, CreateEngineeringPlan, GeneratePatch, ApplyChanges,
    Validate, RunTests, DecisionPoint, Review, Completed]

  predicate Terminal(s: Stage) {
    s.Completed? || s.Failed? || s.Cancelled? || s.Escalate?
  }

  function StateForStage(s: Stage): WorkflowState {
    match s
    case Retry => Retrying
    case Escalate => Escalating
    case Completed => StateCompleted
    case Failed => StateFailed
    case Cancelled => StateCancelled
    case _ => Running
  }

  /** The stage's display value. */
  function StageValue(s: Stage): string {
    match s
    case ReceiveRepository => "Receive Repository"
    case ReceiveIssue => "Receive Issue"
    case UnderstandIssue => "Understand Issue"
    case CollectContext => "Collect Context"
    case RepositorySearch => "Repository Search"
    case ReadRelevantFiles => "Read Relevant Files"
    case AnalyzeRootCause => "Analyze Root Cause"
    case CreateEngineeringPlan => "Create Engineering Plan"
    case GeneratePatch => "Generate Patch"
    case ApplyChanges => "Apply Changes"
    case Validate => "Validate"
    case RunTests => "Run Tests"
    case DecisionPoint => "Decision Point"
    case Retry => "Retry"
    case Escalate => "Escalate"
    case Review => "Review"
    case Completed => "Completed"
    case Failed => "Failed"
    case Cancelled => "Cancelled"
  }

  function Blanked(s: string): (r: string)
    ensures |r| == |s|
  {
    seq(|s|, i requires 0 <= i < |s| => if s[i] == '_' then ' ' else s[i])
  }

  function Normalize(text: string): string {
    Blanked(Lower(Strip(text)))
  }

  /** Stage names written with blanks are the lower-cased values, so one comparison covers both spellings. */
  function FindStage(normalized: string, stages: seq<Stage>): (r: Option<Stage>)
    ensures r.Some? ==> r.value in stages && Lower(StageValue(r.value)) == normalized
    ensures r.None? ==> forall s :: s in stages ==> Lower(StageValue(s)) != normalized
  {
    if stages == [] then None
    else if Lower(StageValue(stages[0])) == normalized then Some(stages[0])
    else FindStage(normalized, stages[1..])
  }

  const ALL_STAGES: seq<Stage> := [
    ReceiveRepository, ReceiveIssue, UnderstandIssue, CollectContext, RepositorySearch,
    ReadRelevantFiles, AnalyzeRootCause, CreateEngineeringPlan, GeneratePatch, ApplyChanges,
    Validate, RunTests, DecisionPoint, Retry, Escalate, Review, Completed, Failed, Cancelled]

  function StageFromText(text: string): Option<Stage> {
    FindStage(Normalize(text), ALL_STAGES)
  }

  // ----- the execution context -----

  datatype TimelineEntry = TimelineEntry(stage: Stage, summary: string, artifacts: seq<string>)

  datatype Context = Context(
    stage: Stage,
    state: WorkflowState,
    activeAgent: Option<string>,
    retryCount: int,
    visited: seq<WorkflowState>,
    timeline: seq<TimelineEntry>,
    artifacts: seq<string>)
  {
    function WithStage(s: Stage, st: WorkflowState): Context {
      this.(stage := s, state := st, visited := visited + [st])
    }

    function WithActiveAgent(agent: Option<string>): Context {
      this.(activeAgent := agent)
    }

    function WithRetryCount(n: int): Context {
      this.(retryCount := n)
    }

    function Record(summary: string, refs: seq<string>): Context {
      this.(timeline := timeline + [TimelineEntry(stage, summary, refs)])
    }

    function AddArtifacts(refs: seq<string>): Context
      decreases |refs|
    {
      if refs == [] then this else this.(artifacts := artifacts + [refs[0]]).AddArtifacts(refs[1..])
    }
  }

  /** ExecutionContextBuilder.create */
  const NEW_CONTEXT := Context(ReceiveRepository, Created, None, 0, [Created], [], [])

  lemma {:induction false} AddArtifactsAppends(c: Context, refs: seq<string>)
    ensures c.AddArtifacts(refs) == c.(artifacts := c.artifacts + refs)
    decreases |refs|
  {
    if refs == [] {
      assert c.artifacts + refs == c.artifacts;
    } else {
      AddArtifactsAppends(c.(artifacts := c.artifacts + [refs[0]]), refs[1..]);
      assert c.artifacts + [refs[0]] + refs[1..] == c.artifacts + refs;
    }
  }
}
