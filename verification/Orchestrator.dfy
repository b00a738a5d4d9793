/** The step-bounded orchestration loop over arbitrary agents, as a function of what happens at each step. */
module Orchestrator {
  import opened Results
  import opened Text
  import opened Workflow
  import opened PySeq

  datatype AgentResult = AgentResult(status: string, summary: string, artifacts: seq<string>, next: Option<string>) {
    predicate Succeeded() {
      status == "success"
    }
  }

  datatype Exception = CancelledException | WorkflowException(message: string) | OtherException(text: string)

  /** How a dispatch ends: any result at all, a dispatch failure, or an exception that leaves the loop. */
  datatype Dispatch = Replied(result: AgentResult) | DispatchFailed(error: string) | Throws(exception: Exception)

  /** What a publication gives its caller: nothing, or the exception of a subscriber. */
  type Publication = Option<Exception>

  /**
   What one step of the loop meets: cancellation at its head, the agent found for the stage, its dispatch, and the
   publications on the way: of a terminal stage, of the dispatch's start, of a failure, and of the dispatch's end.
  */
  datatype Turn = Turn(
    cancelled: bool,
    terminal: Publication,
    agent: Option<string>,
    started: Publication,
    dispatch: Dispatch,
    failed: Publication,
    completed: Publication)

  function StageIndex(s: Stage, order: seq<Stage>): (r: Option<nat>)
    ensures r.Some? ==> r.value < |order| && order[r.value] == s
    ensures r.None? <==> s !in order
  {
    if order == [] then None
    else if order[0] == s then Some(0)
    else match StageIndex(s, order[1..])
      case Some(i) => Some(i + 1)
      case None => None
  }

  lemma {:induction false} StageIndexOf(order: seq<Stage>, k: nat)
    requires k < |order| && forall a, b :: 0 <= a < b < |order| ==> order[a] != order[b]
    ensures StageIndex(order[k], order) == Some(k)
  {
    if k > 0 {
      assert order[1..][k - 1] == order[k];
      StageIndexOf(order[1..], k - 1);
    }
  }

  function RequestedStage(r: AgentResult): Option<Stage> {
    match r.next
    case Some(text) => if text == "" then None else StageFromText(text)
    case None => None
  }

  /** The stage after this one in the default order. */
  function FollowingStage(current: Stage): Result<Stage, Exception> {
    match StageIndex(current, DEFAULT_STAGE_ORDER)
    case None => Err(WorkflowException("Unknown workflow stage"))
    case Some(i) => Ok(if i + 1 >= |DEFAULT_STAGE_ORDER| then Completed else DEFAULT_STAGE_ORDER[i + 1])
  }

  function NextStage(current: Stage, r: AgentResult): Result<Stage, Exception> {
    match RequestedStage(r) case Some(s) => Ok(s) case None => FollowingStage(current)
  }

  function HandleFailure(c: Context, error: string): Context {
    if c.retryCount <= 0 then
      c.WithRetryCount(c.retryCount + 1).WithStage(Retry, Retrying).Record("Failure routed to retry: " + error, [])
    else
      c.WithStage(Escalate, Escalating).Record("Failure routed to escalation: " + error, [])
  }

  function ApplyAgentResult(c: Context, r: AgentResult): Result<Context, Exception> {
    if !r.Succeeded() then Ok(HandleFailure(c, r.summary))
    else
      var next :- NextStage(c.stage, r);
      Ok(c.WithActiveAgent(None).WithStage(next, StateForStage(next)).AddArtifacts(r.artifacts).Record(r.summary, r.artifacts))
  }

  function FinalizeTerminal(c: Context): Context {
    if c.stage.Completed? then c.WithStage(Completed, StateCompleted).Record("Workflow completed", []) else c
  }

  /** The context the loop starts from. */
  function Started(c: Context): Context {
    c.WithStage(c.stage, Running).Record("Workflow running", [])
  }

  datatype End = Returns(context: Context) | Raises(exception: Exception)

  /**
   One run of the loop: how it ends, the context at every loop head, the stages dispatched, the results that
   succeeded, how many failures were handled, and the last context stored in the session.
  */
  datatype LoopRun = LoopRun(end: End, heads: seq<Context>, dispatched: seq<Stage>, successes: seq<AgentResult>,
                             failures: nat, stored: Context)

  /** What one step makes of the loop: its end, or the context of the next head. */
  datatype Advance =
    | Stop(end: End, dispatched: seq<Stage>, successes: seq<AgentResult>, failures: nat, stored: Context)
    | Go(next: Context, result: AgentResult)

  /** Terminal stages that are published when they are reached. */
  predicate Announced(s: Stage) {
    s.Completed? || s.Escalate?
  }

  function AdvanceFrom(c: Context, t: Turn): Advance {
    if t.cancelled then Stop(Raises(CancelledException), [], [], 0, c)
    else if Terminal(c.stage) then
      if Announced(c.stage) && t.terminal.Some? then Stop(Raises(t.terminal.value), [], [], 0, c)
      else Stop(Returns(FinalizeTerminal(c)), [], [], 0, FinalizeTerminal(c))
    else if t.agent.None? then Stop(Raises(WorkflowException("No registered agent supports stage")), [], [], 0, c)
    else if t.started.Some? then Stop(Raises(t.started.value), [], [], 0, c)
    else AfterDispatch(c.stage, c.WithActiveAgent(t.agent), t)
  }

  /** The step from the dispatch on, in the context with the active agent. */
  function AfterDispatch(stage: Stage, active: Context, t: Turn): Advance {
    match t.dispatch
    case Throws(e) => Stop(Raises(e), [stage], [], 0, active)
    case DispatchFailed(e) =>
      if t.failed.Some? then Stop(Raises(t.failed.value), [stage], [], 0, active)
      else Stop(Returns(HandleFailure(active, e)), [stage], [], 1, HandleFailure(active, e))
    case Replied(r) =>
      if !r.Succeeded() && t.failed.Some? then Stop(Raises(t.failed.value), [stage], [], 0, active)
      else
        match ApplyAgentResult(active, r)
        case Err(e) => Stop(Raises(e), [stage], [r], 0, active)
        case Ok(next) =>
          if t.completed.Some? then
            Stop(Raises(t.completed.value), [stage], if r.Succeeded() then [r] else [], if r.Succeeded() then 0 else 1, active)
          else Go(next, r)
  }

  /** A step goes on only with a reply whose consequences could be drawn. */
  lemma {:induction false} GoesOn(c: Context, t: Turn)
    requires AdvanceFrom(c, t).Go?
    ensures !Terminal(c.stage) && t.dispatch == Replied(AdvanceFrom(c, t).result)
    ensures ApplyAgentResult(c.WithActiveAgent(t.agent), AdvanceFrom(c, t).result) == Ok(AdvanceFrom(c, t).next)
  {
    hide ApplyAgentResult, HandleFailure, FinalizeTerminal;
  }

  /** The steps from number i on; c is the context at the head of step i and the one stored in the session. */
  function Loop(c: Context, turns: nat -> Turn, i: nat, maxSteps: int): LoopRun
    decreases maxSteps - i
  {
    if i >= maxSteps then LoopRun(Raises(WorkflowException("Workflow exceeded maximum orchestrator steps")), [], [], [], 0, c)
    else
      match AdvanceFrom(c, turns(i))
      case Stop(end, dispatched, successes, failures, stored) => LoopRun(end, [c], dispatched, successes, failures, stored)
      case Go(next, r) =>
        var rest := Loop(next, turns, i + 1, maxSteps);
        LoopRun(rest.end, [c] + rest.heads, [c.stage] + rest.dispatched,
                (if r.Succeeded() then [r] else []) + rest.successes,
                (if r.Succeeded() then 0 else 1) + rest.failures, rest.stored)
  }

  function RunLoop(c: Context, turns: nat -> Turn, maxSteps: int): LoopRun {
    Loop(Started(c), turns, 0, maxSteps)
  }

  /** A loop that returns has stored the context it returns. */
  lemma {:induction false} StoredAtEnd(c: Context, turns: nat -> Turn, i: nat, maxSteps: int)
    ensures var run := Loop(c, turns, i, maxSteps); run.end.Returns? ==> run.stored == run.end.context
    decreases maxSteps - i
  {
    hide ApplyAgentResult, HandleFailure, FinalizeTerminal;
    if i < maxSteps && AdvanceFrom(c, turns(i)).Go? {
      StoredAtEnd(AdvanceFrom(c, turns(i)).next, turns, i + 1, maxSteps);
    }
  }

  /** The observable part of a run: its end, the stages dispatched after the given ones, the context stored last. */
  ghost predicate Shows(run: LoopRun, end: End, dispatched: seq<Stage>, stored: Context, before: seq<Stage>) {
    end == run.end && dispatched == before + run.dispatched && stored == run.stored
  }

  lemma {:induction false} LoopHead(c: Context, turns: nat -> Turn, i: nat, maxSteps: int, before: seq<Stage>)
    requires i < maxSteps
    ensures match AdvanceFrom(c, turns(i))
            case Stop(end, stages, _, _, stored) => Shows(Loop(c, turns, i, maxSteps), end, before + stages, stored, before)
            case Go(next, _) =>
              forall end, dispatched, stored ::
                Shows(Loop(next, turns, i + 1, maxSteps), end, dispatched, stored, before + [c.stage])
                ==> Shows(Loop(c, turns, i, maxSteps), end, dispatched, stored, before)
  {
    hide AdvanceFrom;
    match AdvanceFrom(c, turns(i))
    case Stop(_, _, _, _, _) =>
    case Go(next, _) =>
      var rest := Loop(next, turns, i + 1, maxSteps);
      assert before + [c.stage] + rest.dispatched == before + ([c.stage] + rest.dispatched);
  }

  lemma {:induction false} LoopOut(c: Context, turns: nat -> Turn, i: nat, maxSteps: int, before: seq<Stage>)
    requires i >= maxSteps
    ensures Shows(Loop(c, turns, i, maxSteps), Raises(WorkflowException("Workflow exceeded maximum orchestrator steps")), before, c, before)
  {
    assert before + [] == before;
  }

  // ----- state and stage -----

  predicate Agrees(c: Context) {
    c.state == StateForStage(c.stage)
  }

  lemma {:induction false} LoopAgrees(c: Context, turns: nat -> Turn, i: nat, maxSteps: int)
    requires Agrees(c)
    ensures forall k :: 0 <= k < |Loop(c, turns, i, maxSteps).heads| ==> Agrees(Loop(c, turns, i, maxSteps).heads[k])
    ensures Loop(c, turns, i, maxSteps).end.Returns? ==> Agrees(Loop(c, turns, i, maxSteps).end.context)
    decreases maxSteps - i
  {
    hide ApplyAgentResult;
    if i < maxSteps && AdvanceFrom(c, turns(i)).Go? {
      GoesOn(c, turns(i));
      var active, r := c.WithActiveAgent(turns(i).agent), AdvanceFrom(c, turns(i)).result;
      AppliedAgrees(active, r);
      LoopAgrees(AdvanceFrom(c, turns(i)).next, turns, i + 1, maxSteps);
    }
  }

  lemma {:induction false} AppliedAgrees(c: Context, r: AgentResult)
    requires ApplyAgentResult(c, r).Ok?
    ensures Agrees(ApplyAgentResult(c, r).value)
  {
    hide NextStage;
    if r.Succeeded() {
      AppliedSuccess(c, r);
    } else {
      AppliedFailure(c, r);
    }
  }

  /** What a failure does to the context, field by field. */
  lemma {:induction false} AppliedFailure(c: Context, r: AgentResult)
    requires !r.Succeeded()
    ensures ApplyAgentResult(c, r).Ok?
    ensures var next := ApplyAgentResult(c, r).value;
            && next.artifacts == c.artifacts && next.activeAgent == c.activeAgent
            && next.stage == (if c.retryCount <= 0 then Retry else Escalate)
            && next.state == StateForStage(next.stage)
            && next.retryCount == (if c.retryCount <= 0 then c.retryCount + 1 else c.retryCount)
            && next.visited == c.visited + [next.state]
            && next.timeline[..|next.timeline| - 1] == c.timeline && |next.timeline| == |c.timeline| + 1
            && next.timeline[|c.timeline|].stage == next.stage && next.timeline[|c.timeline|].artifacts == []
  {
  }

  /** What a success does to the context, field by field. */
  lemma {:induction false} AppliedSuccess(c: Context, r: AgentResult)
    requires r.Succeeded() && NextStage(c.stage, r).Ok?
    ensures var next := NextStage(c.stage, r).value;
            ApplyAgentResult(c, r)
            == Ok(Context(next, StateForStage(next), None, c.retryCount, c.visited + [StateForStage(next)],
                          c.timeline + [TimelineEntry(next, r.summary, r.artifacts)], c.artifacts + r.artifacts))
  {
    hide NextStage;
    var next := NextStage(c.stage, r).value;
    AddArtifactsAppends(c.WithActiveAgent(None).WithStage(next, StateForStage(next)), r.artifacts);
  }

  /**
   At every loop head the state is the one that belongs to the stage, if and only if the run starts at a stage
   whose state is Running; contexts built by the context builder do.
  */
  lemma {:induction false} HeadsAgree(c: Context, turns: nat -> Turn, maxSteps: int)
    requires maxSteps >= 1
    ensures (forall k :: 0 <= k < |RunLoop(c, turns, maxSteps).heads| ==> Agrees(RunLoop(c, turns, maxSteps).heads[k]))
            <==> StateForStage(c.stage) == Running
  {
    if StateForStage(c.stage) == Running {
      LoopAgrees(Started(c), turns, 0, maxSteps);
    } else {
      assert RunLoop(c, turns, maxSteps).heads[0] == Started(c);
    }
  }

  /** A run on a context as the builder makes it keeps state and stage together, and so does the context it returns. */
  lemma {:induction false} NewContextsAgree(turns: nat -> Turn, maxSteps: int)
    ensures var run := RunLoop(NEW_CONTEXT, turns, maxSteps);
            && (forall k :: 0 <= k < |run.heads| ==> Agrees(run.heads[k]))
            && (run.end.Returns? ==> Agrees(run.end.context))
  {
    LoopAgrees(Started(NEW_CONTEXT), turns, 0, maxSteps);
  }

  /** The loop never dispatches more often than its step bound. */
  lemma {:induction false} DispatchBound(c: Context, turns: nat -> Turn, i: nat, maxSteps: int)
    ensures |Loop(c, turns, i, maxSteps).dispatched| <= if i < maxSteps then maxSteps - i else 0
    decreases maxSteps - i
  {
    hide ApplyAgentResult;
    if i < maxSteps && AdvanceFrom(c, turns(i)).Go? {
      DispatchBound(AdvanceFrom(c, turns(i)).next, turns, i + 1, maxSteps);
    }
  }

  // ----- the straight path -----

  /** Never cancelled, no subscriber raises, an agent for every stage, and every reply succeeds without naming a stage. */
  ghost predicate Smooth(turns: nat -> Turn) {
    forall i: nat :: SmoothTurn(turns(i))
  }

  predicate SmoothTurn(t: Turn) {
    && !t.cancelled && t.agent.Some? && t.dispatch.Replied?
    && t.terminal.None? && t.started.None? && t.failed.None? && t.completed.None?
    && t.dispatch.result.Succeeded() && RequestedStage(t.dispatch.result).None?
  }

  const LAST: nat := |DEFAULT_STAGE_ORDER| - 1

  function StageAt(k: nat): Stage
    requires k <= LAST
  {
    DEFAULT_STAGE_ORDER[k]
  }

  lemma {:induction false} StageAtFollows(k: nat)
    requires k <= LAST
    ensures k < LAST ==> FollowingStage(StageAt(k)) == Ok(StageAt(k + 1))
    ensures Terminal(StageAt(k)) <==> k == LAST
    ensures StageAt(LAST) == Completed
  {
    hide StageIndex;
    forall a, b | 0 <= a < b <= LAST
      ensures DEFAULT_STAGE_ORDER[a] != DEFAULT_STAGE_ORDER[b]
    {
      StagesDiffer(a, b);
    }
    StageIndexOf(DEFAULT_STAGE_ORDER, k);
  }

  lemma {:induction false} StagesDiffer(a: nat, b: nat)
    requires a < b <= LAST
    ensures DEFAULT_STAGE_ORDER[a] != DEFAULT_STAGE_ORDER[b]
  {
  }

  /** The stages from number k up to, and without, the completed one. */
  function Remaining(k: nat): (r: seq<Stage>)
    requires k <= LAST
    ensures |r| == LAST - k && forall i :: 0 <= i < |r| ==> r[i] == DEFAULT_STAGE_ORDER[k + i]
    decreases LAST - k
  {
    if k == LAST then [] else [StageAt(k)] + Remaining(k + 1)
  }

  /**
   On the straight path the dispatched stages are exactly the rest of the default order, cut at the steps left, and the
   run completes if and only if those are at least the stages left, the completed one included; otherwise it ends with
   the step limit's exception.
  */
  lemma {:induction false} SmoothRun(c: Context, turns: nat -> Turn, i: nat, maxSteps: int, k: nat)
    requires Smooth(turns) && k <= LAST && c.stage == StageAt(k)
    ensures var run := Loop(c, turns, i, maxSteps);
            if maxSteps - i > LAST - k then
              run.dispatched == Remaining(k) && run.end.Returns? && run.end.context.stage == Completed
            else
              run.dispatched == Remaining(k)[..Max(0, maxSteps - i)]
              && run.end == Raises(WorkflowException("Workflow exceeded maximum orchestrator steps"))
    decreases maxSteps - i
  {
    hide Loop, StageAt, AdvanceFrom, FinalizeTerminal, Remaining, SmoothTurn;
    RemainingNext(k, maxSteps - i);
    LoopSteps(c, turns, i, maxSteps);
    if i < maxSteps {
      assert SmoothTurn(turns(i));
      SmoothAdvance(c, turns(i), k);
      if k < LAST {
        SmoothRun(AdvanceFrom(c, turns(i)).next, turns, i + 1, maxSteps, k + 1);
      }
    }
  }

  /** The end and the dispatches of the loop, one step at a time. */
  lemma {:induction false} LoopSteps(c: Context, turns: nat -> Turn, i: nat, maxSteps: int)
    ensures var run := Loop(c, turns, i, maxSteps);
            if i >= maxSteps then
              run.end == Raises(WorkflowException("Workflow exceeded maximum orchestrator steps")) && run.dispatched == []
            else match AdvanceFrom(c, turns(i))
              case Stop(end, dispatched, _, _, _) => run.end == end && run.dispatched == dispatched
              case Go(next, _) =>
                var rest := Loop(next, turns, i + 1, maxSteps);
                run.end == rest.end && run.dispatched == [c.stage] + rest.dispatched
  {
    hide AdvanceFrom;
  }

  lemma {:induction false} RemainingNext(k: nat, n: int)
    requires k <= LAST
    ensures k == LAST ==> Remaining(k) == []
    ensures k < LAST ==> Remaining(k) == [StageAt(k)] + Remaining(k + 1)
    ensures k < LAST && 0 < n <= LAST - k ==> Remaining(k)[..n] == [StageAt(k)] + Remaining(k + 1)[..n - 1]
    ensures n <= 0 ==> Max(0, n) == 0 && Remaining(k)[..0] == []
  {
    hide StageAt;
  }

  /** One step of the straight path: on to the next stage, or the end at the last one. */
  lemma {:induction false} SmoothAdvance(c: Context, t: Turn, k: nat)
    requires SmoothTurn(t) && k <= LAST && c.stage == StageAt(k)
    ensures if k == LAST then AdvanceFrom(c, t) == Stop(Returns(FinalizeTerminal(c)), [], [], 0, FinalizeTerminal(c))
                              && FinalizeTerminal(c).stage == Completed
            else AdvanceFrom(c, t).Go? && AdvanceFrom(c, t).next.stage == StageAt(k + 1)
  {
    hide StageAt, FollowingStage, RequestedStage, HandleFailure;
    StageAtFollows(k);
    if k < LAST {
      AppliedSuccess(c.WithActiveAgent(t.agent), t.dispatch.result);
    }
  }

  // ----- stages named by agents -----

  /** A name is a stage's value with any capitals, and with underscores or blanks between its words. */
  predicate Spells(name: string, s: Stage) {
    && |name| == |StageValue(s)|
    && forall i :: 0 <= i < |name| ==> LowerChar(name[i]) == LowerChar(StageValue(s)[i]) || (name[i] == '_' && StageValue(s)[i] == ' ')
  }

  /** Length and first two letters tell the stages' values apart. */
  function Signature(s: Stage): (nat, char, char) {
    match s
    case ReceiveRepository => (18, 'r', 'e')
    case ReceiveIssue => (13, 'r', 'e')
    case UnderstandIssue => (16, 'u', 'n')
    case CollectContext => (15, 'c', 'o')
    case RepositorySearch => (17, 'r', 'e')
    case ReadRelevantFiles => (19, 'r', 'e')
    case AnalyzeRootCause => (18, 'a', 'n')
    case CreateEngineeringPlan => (23, 'c', 'r')
    case GeneratePatch => (14, 'g', 'e')
    case ApplyChanges => (13, 'a', 'p')
    case Validate => (8, 'v', 'a')
    case RunTests => (9, 'r', 'u')
    case DecisionPoint => (14, 'd', 'e')
    case Retry => (5, 'r', 'e')
    case Escalate => (8, 'e', 's')
    case Review => (6, 'r', 'e')
    case Completed => (9, 'c', 'o')
    case Failed => (6, 'f', 'a')
    case Cancelled => (9, 'c', 'a')
  }

  lemma {:induction false} SignatureOf(s: Stage)
    ensures var v := StageValue(s); |v| > 1 && Signature(s) == (|v|, LowerChar(v[0]), LowerChar(v[1]))
  {
  }

  lemma {:induction false} ValueEnds(s: Stage)
    ensures var v := StageValue(s); |v| > 1 && 'a' <= LowerChar(v[0]) <= 'z' && 'a' <= LowerChar(v[|v| - 1]) <= 'z'
  {
  }

  predicate Preparing(s: Stage) {
    || s.ReceiveRepository? || s.ReceiveIssue? || s.UnderstandIssue? || s.CollectContext?
    || s.RepositorySearch? || s.ReadRelevantFiles? || s.AnalyzeRootCause?
  }

  lemma {:induction false} NoUnderscore(s: Stage)
    ensures forall i :: 0 <= i < |StageValue(s)| ==> StageValue(s)[i] != '_'
  {
    hide StageValue;
    if Preparing(s) {
      NoUnderscoreBefore(s);
    } else {
      NoUnderscoreAfter(s);
    }
  }

  lemma {:induction false} NoUnderscoreBefore(s: Stage)
    requires Preparing(s)
    ensures forall i :: 0 <= i < |StageValue(s)| ==> StageValue(s)[i] != '_'
  {
  }

  lemma {:induction false} NoUnderscoreAfter(s: Stage)
    requires !Preparing(s)
    ensures forall i :: 0 <= i < |StageValue(s)| ==> StageValue(s)[i] != '_'
  {
  }

  lemma {:induction false} ListedStage(s: Stage)
    ensures s in ALL_STAGES
  {
    var all := ALL_STAGES;
    assert all[0] in all && all[1] in all && all[2] in all && all[3] in all && all[4] in all && all[5] in all && all[6] in all;
    assert all[7] in all && all[8] in all && all[9] in all && all[10] in all && all[11] in all && all[12] in all;
    assert all[13] in all && all[14] in all && all[15] in all && all[16] in all && all[17] in all && all[18] in all;
  }

  lemma {:induction false} ValuesDiffer(a: Stage, b: Stage)
    requires Lower(StageValue(a)) == Lower(StageValue(b))
    ensures a == b
  {
    hide StageValue;
    SignatureOf(a);
    SignatureOf(b);
    assert Lower(StageValue(a))[0] == LowerChar(StageValue(a)[0]) && Lower(StageValue(b))[0] == LowerChar(StageValue(b)[0]);
    assert Lower(StageValue(a))[1] == LowerChar(StageValue(a)[1]) && Lower(StageValue(b))[1] == LowerChar(StageValue(b)[1]);
    assert Signature(a) == Signature(b);
  }

  /** Every spelling of a stage's name, with any blanks around it, is that stage and no other. */
  lemma {:induction false} SpellingNames(before: string, name: string, after: string, s: Stage)
    requires AllBlank(before) && AllBlank(after) && Spells(name, s)
    ensures StageFromText(before + name + after) == Some(s)
  {
    hide StageValue, Lower, FindStage;
    ListedStage(s);
    SpellingTrimmed(name, s);
    StripAround(before, name, after);
    SpellingNormal(name, s);
    var found := FindStage(Lower(StageValue(s)), ALL_STAGES);
    if found.Some? {
      ValuesDiffer(found.value, s);
    }
  }

  lemma {:induction false} SpellingTrimmed(name: string, s: Stage)
    requires Spells(name, s)
    ensures Trimmed(name) && name != ""
  {
    hide StageValue;
    ValueEnds(s);
    var v := StageValue(s);
    assert LowerChar(name[0]) == LowerChar(v[0]) && LowerChar(name[|name| - 1]) == LowerChar(v[|v| - 1]);
  }

  lemma {:induction false} SpellingNormal(name: string, s: Stage)
    requires Spells(name, s)
    ensures Blanked(Lower(name)) == Lower(StageValue(s))
  {
    hide StageValue;
    NoUnderscore(s);
    var v := StageValue(s);
    forall i | 0 <= i < |name|
      ensures Blanked(Lower(name))[i] == Lower(v)[i]
    {
      assert LowerChar('_') == '_' && LowerChar(' ') == ' ';
    }
  }

  /** A reply that succeeds and names a stage, in any spelling, continues exactly there, whatever the stage it was at. */
  lemma {:induction false} NamedStageFollows(c: Context, turns: nat -> Turn, i: nat, maxSteps: int,
                                             before: string, name: string, after: string, s: Stage)
    requires AllBlank(before) && AllBlank(after) && Spells(name, s)
    requires i + 1 < maxSteps && !Terminal(c.stage)
    requires var t := turns(i);
             && !t.cancelled && t.agent.Some? && t.started.None? && t.completed.None? && t.dispatch.Replied?
             && t.dispatch.result.Succeeded() && t.dispatch.result.next == Some(before + name + after)
    ensures var heads := Loop(c, turns, i, maxSteps).heads;
            |heads| > 1 && heads[1].stage == s && heads[1].state == StateForStage(s)
  {
    hide StageFromText, Spells, HandleFailure, FinalizeTerminal, ApplyAgentResult;
    SpellingNames(before, name, after, s);
    SpellingTrimmed(name, s);
    var t := turns(i);
    assert before + name + after != "";
    AppliedSuccess(c.WithActiveAgent(t.agent), t.dispatch.result);
    var next := AdvanceFrom(c, t).next;
    assert Loop(next, turns, i + 1, maxSteps).heads[0] == next;
  }

  /** A text names no stage exactly when, stripped, lower-cased and with blanks for underscores, it is no stage's value. */
  lemma {:induction false} NamesNothing(r: AgentResult)
    ensures RequestedStage(r).None?
            <==> r.next.None? || r.next.value == "" || forall s: Stage :: Normalize(r.next.value) != Lower(StageValue(s))
  {
    hide StageValue, Lower, Normalize;
    forall s: Stage
      ensures s in ALL_STAGES
    {
      ListedStage(s);
    }
  }

  // ----- what a run accumulates -----

  function ArtifactsOf(rs: seq<AgentResult>): seq<string> {
    if rs == [] then [] else rs[0].artifacts + ArtifactsOf(rs[1..])
  }

  /** The last context against the first one, given the results that succeeded and the failures handled. */
  ghost predicate Grown(c: Context, last: Context, successes: seq<AgentResult>, failures: nat) {
    && last.artifacts == c.artifacts + ArtifactsOf(successes)
    && c.timeline <= last.timeline
    && c.visited <= last.visited
    && last.retryCount == (if c.retryCount == 0 && failures > 0 then 1 else c.retryCount)
    && failures <= (if c.retryCount == 0 then 2 else 1)
  }

  lemma {:induction false} GrownOnce(c: Context, agent: Option<string>, r: AgentResult, next: Context, last: Context, rest: seq<AgentResult>, failures: nat)
    requires c.retryCount >= 0 && ApplyAgentResult(c.WithActiveAgent(agent), r) == Ok(next)
    requires Grown(next, last, rest, failures)
    requires !r.Succeeded() && c.retryCount > 0 ==> failures == 0
    ensures next.retryCount >= 0
    ensures if r.Succeeded() then Grown(c, last, [r] + rest, failures) else Grown(c, last, rest, failures + 1)
  {
    hide NextStage, HandleFailure, ArtifactsOf;
    var active := c.WithActiveAgent(agent);
    if r.Succeeded() {
      AppliedSuccess(active, r);
      SuccessAccumulates(c, r, rest);
    } else {
      AppliedFailure(active, r);
    }
  }

  /**
   A run that returns normally: the artifacts are the initial ones followed by those of the successful results in
   order, the timeline only grew at its end, and the retry count left 0 exactly when a failure was handled.
  */
  lemma {:induction false} Accumulates(c: Context, turns: nat -> Turn, i: nat, maxSteps: int)
    requires c.retryCount >= 0
    ensures var run := Loop(c, turns, i, maxSteps);
            run.end.Returns? ==> Grown(c, run.end.context, run.successes, run.failures)
    decreases maxSteps - i
  {
    hide NextStage, ApplyAgentResult;
    if i < maxSteps && AdvanceFrom(c, turns(i)).Go? {
      GoesOn(c, turns(i));
      var active, r := c.WithActiveAgent(turns(i).agent), AdvanceFrom(c, turns(i)).result;
      var next := AdvanceFrom(c, turns(i)).next;
      var rest := Loop(next, turns, i + 1, maxSteps);
      RetryCountKept(active, r);
      Accumulates(next, turns, i + 1, maxSteps);
      if !r.Succeeded() {
        AppliedFailure(active, r);
        if c.retryCount > 0 {
          EscalatedStops(next, turns, i + 1, maxSteps);
        }
      }
      if rest.end.Returns? {
        GrownOnce(c, turns(i).agent, r, next, rest.end.context, rest.successes, rest.failures);
        assert [] + rest.successes == rest.successes;
      }
    } else {
      NoArtifacts();
      assert c.artifacts + [] == c.artifacts;
    }
  }

  lemma {:induction false} NoArtifacts()
    ensures ArtifactsOf([]) == []
  {
  }

  lemma {:induction false} RetryCountKept(c: Context, r: AgentResult)
    requires ApplyAgentResult(c, r).Ok? && c.retryCount >= 0
    ensures ApplyAgentResult(c, r).value.retryCount >= 0
  {
    hide NextStage;
    if r.Succeeded() {
      AppliedSuccess(c, r);
    } else {
      AppliedFailure(c, r);
    }
  }

  lemma {:induction false} SuccessAccumulates(c: Context, r: AgentResult, rest: seq<AgentResult>)
    ensures (c.artifacts + r.artifacts) + ArtifactsOf(rest) == c.artifacts + ArtifactsOf([r] + rest)
  {
    assert ([r] + rest)[1..] == rest;
  }

  /** A loop that returns has recorded one timeline entry and one visited state for every dispatch and for its completion. */
  lemma {:induction false} EveryStepRecorded(c: Context, turns: nat -> Turn, i: nat, maxSteps: int)
    ensures var run := Loop(c, turns, i, maxSteps);
            run.end.Returns? ==>
              var last, steps := run.end.context, |run.dispatched| + if run.end.context.stage.Completed? then 1 else 0;
              |last.timeline| == |c.timeline| + steps && |last.visited| == |c.visited| + steps
    decreases maxSteps - i
  {
    hide ApplyAgentResult;
    if i < maxSteps && AdvanceFrom(c, turns(i)).Go? {
      GoesOn(c, turns(i));
      var active, r := c.WithActiveAgent(turns(i).agent), AdvanceFrom(c, turns(i)).result;
      OneEntry(active, r);
      EveryStepRecorded(AdvanceFrom(c, turns(i)).next, turns, i + 1, maxSteps);
    }
  }

  /** So a whole run that returns has one entry and one state for its start, for every dispatch, and for its completion. */
  lemma {:induction false} RunRecorded(c: Context, turns: nat -> Turn, maxSteps: int)
    ensures var run := RunLoop(c, turns, maxSteps);
            run.end.Returns? ==>
              var last, steps := run.end.context, 1 + |run.dispatched| + if run.end.context.stage.Completed? then 1 else 0;
              |last.timeline| == |c.timeline| + steps && |last.visited| == |c.visited| + steps
  {
    hide Loop;
    EveryStepRecorded(Started(c), turns, 0, maxSteps);
  }

  lemma {:induction false} OneEntry(c: Context, r: AgentResult)
    requires ApplyAgentResult(c, r).Ok?
    ensures var next := ApplyAgentResult(c, r).value; |next.timeline| == |c.timeline| + 1 && |next.visited| == |c.visited| + 1
  {
    hide NextStage;
    if r.Succeeded() {
      AppliedSuccess(c, r);
    } else {
      AppliedFailure(c, r);
    }
  }

  /** An escalated run handles no further failure. */
  lemma {:induction false} EscalatedStops(c: Context, turns: nat -> Turn, i: nat, maxSteps: int)
    requires c.stage.Escalate?
    ensures Loop(c, turns, i, maxSteps).failures == 0 && Loop(c, turns, i, maxSteps).dispatched == []
    ensures Loop(c, turns, i, maxSteps).end.Returns? ==> Loop(c, turns, i, maxSteps).end.context == c
  {
  }

  /** After a failure was routed to a retry, a success must name the stage to continue with, or the run fails. */
  lemma {:induction false} RetryNeedsNamedStage(c: Context, turns: nat -> Turn, i: nat, maxSteps: int)
    requires c.stage.Retry? && i < maxSteps && SmoothTurn(turns(i))
    ensures Loop(c, turns, i, maxSteps).end == Raises(WorkflowException("Unknown workflow stage"))
  {
    assert Retry !in DEFAULT_STAGE_ORDER;
  }

  // ----- cancellation -----

  /** One of the turn's publications raises the cancellation. */
  predicate SubscriberCancels(t: Turn) {
    Some(CancelledException) in [t.terminal, t.started, t.failed, t.completed]
  }

  /** The token was cancelled at a head of the run, or the dispatch made there threw the cancellation. */
  predicate CancelledAt(run: LoopRun, turns: nat -> Turn, i: nat) {
    run.heads != []
    && var last := |run.heads| - 1;
       turns(i + last).cancelled || (|run.dispatched| == |run.heads| && turns(i + last).dispatch == Throws(CancelledException))
  }

  /** What a step's stop is: the cancellation only by the token, the dispatch or a subscriber. */
  lemma {:induction false} OwnExceptions(c: Context, t: Turn)
    requires AdvanceFrom(c, t).Stop?
    ensures var stop := AdvanceFrom(c, t);
            && |stop.dispatched| <= 1
            && (t.cancelled || (|stop.dispatched| == 1 && t.dispatch == Throws(CancelledException)) ==> stop.end == Raises(CancelledException))
            && (stop.end == Raises(CancelledException) ==>
                  t.cancelled || (|stop.dispatched| == 1 && t.dispatch == Throws(CancelledException)) || SubscriberCancels(t))
  {
    hide HandleFailure, FinalizeTerminal, StageFromText;
  }

  /**
   A run ends in the cancellation when its token was cancelled at a head or a dispatch threw it, and otherwise only when a
   subscriber raised it.
  */
  lemma {:induction false} CancelledExactly(c: Context, turns: nat -> Turn, i: nat, maxSteps: int)
    ensures var run := Loop(c, turns, i, maxSteps);
            && (CancelledAt(run, turns, i) ==> run.end == Raises(CancelledException))
            && (run.end == Raises(CancelledException) ==>
                  CancelledAt(run, turns, i) || (run.heads != [] && SubscriberCancels(turns(i + |run.heads| - 1))))
    ensures |Loop(c, turns, i, maxSteps).dispatched| <= |Loop(c, turns, i, maxSteps).heads|
    decreases maxSteps - i
  {
    hide HandleFailure, FinalizeTerminal, ApplyAgentResult;
    if i < maxSteps {
      match AdvanceFrom(c, turns(i))
      case Stop(_, _, _, _, _) =>
        OwnExceptions(c, turns(i));
      case Go(next, _) =>
        GoesOn(c, turns(i));
        CancelledExactly(next, turns, i + 1, maxSteps);
        var rest := Loop(next, turns, i + 1, maxSteps);
        assert i + 1 + (|rest.heads| - 1) == i + |rest.heads|;
    }
  }

  // ----- exceptions on the way -----

  /**
   What stops the loop at a head that is not cancelled: a subscriber to the completion or the escalation, but not to the
   other terminal stages, which publish nothing; no agent; a subscriber to the dispatch's start, before anything is
   dispatched; the dispatch itself; a subscriber to a failure; a subscriber to the dispatch's end.
  */
  lemma {:induction false} ExceptionsStop(c: Context, turns: nat -> Turn, i: nat, maxSteps: int, e: Exception)
    requires i < maxSteps && !turns(i).cancelled
    ensures var t, run := turns(i), Loop(c, turns, i, maxSteps);
            && (c.stage in [Completed, Escalate] && t.terminal == Some(e) ==> run.end == Raises(e) && run.dispatched == [])
            && (c.stage in [Completed, Escalate] && t.terminal == None ==> run.end.Returns? && run.end.context.stage == c.stage)
            && (c.stage in [Failed, Cancelled] ==> run.end == Returns(c) && run.dispatched == [])
            && (!Terminal(c.stage) && t.agent == None ==>
                  run.end == Raises(WorkflowException("No registered agent supports stage")) && run.dispatched == [])
            && (!Terminal(c.stage) && t.agent.Some? && t.started == Some(e) ==> run.end == Raises(e) && run.dispatched == [])
            && (!Terminal(c.stage) && t.agent.Some? && t.started == None ==>
                  && run.dispatched != [] && run.dispatched[0] == c.stage
                  && (t.dispatch == Throws(e) ==> run.end == Raises(e))
                  && (t.dispatch.DispatchFailed? && t.failed == Some(e) ==> run.end == Raises(e))
                  && (t.dispatch.DispatchFailed? && t.failed == None ==> run.end.Returns? && run.dispatched == [c.stage])
                  && (t.dispatch.Replied? && !t.dispatch.result.Succeeded() && t.failed == Some(e) ==> run.end == Raises(e)))
  {
    hide StageFromText;
  }

  /** A subscriber to the dispatch's end comes last: its exception counts once the reply's consequences are drawn. */
  lemma {:induction false} CompletionStops(c: Context, turns: nat -> Turn, i: nat, maxSteps: int, e: Exception)
    requires var t := turns(i);
             && i < maxSteps && !t.cancelled && !Terminal(c.stage) && t.agent.Some? && t.started == None
             && t.dispatch.Replied? && t.completed == Some(e)
    requires var r := turns(i).dispatch.result; if r.Succeeded() then NextStage(c.stage, r).Ok? else turns(i).failed == None
    ensures Loop(c, turns, i, maxSteps).end == Raises(e) && Loop(c, turns, i, maxSteps).dispatched == [c.stage]
  {
    hide NextStage, HandleFailure;
  }

  // ----- where a run returns -----

  /** A step that ends in a dispatch failure while no retry has been counted. */
  predicate FailsToDispatch(c: Context, t: Turn) {
    !Terminal(c.stage) && t.dispatch.DispatchFailed? && c.retryCount <= 0
  }

  /**
   A run returns at a terminal stage, except when its last step could not dispatch and no retry had been counted: then
   it returns at Retry and dispatches nothing more.
  */
  lemma {:induction false} ReturnsAtTerminal(c: Context, turns: nat -> Turn, i: nat, maxSteps: int)
    ensures var run := Loop(c, turns, i, maxSteps);
            run.end.Returns? ==>
              && run.heads != []
              && var last := |run.heads| - 1;
                 && (Terminal(run.end.context.stage) <==> !FailsToDispatch(run.heads[last], turns(i + last)))
                 && (FailsToDispatch(run.heads[last], turns(i + last)) ==> run.end.context.stage == Retry)
    decreases maxSteps - i
  {
    hide ApplyAgentResult;
    if i < maxSteps && AdvanceFrom(c, turns(i)).Go? {
      GoesOn(c, turns(i));
      var next := AdvanceFrom(c, turns(i)).next;
      ReturnsAtTerminal(next, turns, i + 1, maxSteps);
      var rest := Loop(next, turns, i + 1, maxSteps);
      if rest.end.Returns? {
        var last := |rest.heads| - 1;
        assert Loop(c, turns, i, maxSteps).heads[last + 1] == rest.heads[last];
        assert i + 1 + last == i + (last + 1);
      }
    }
  }
}
