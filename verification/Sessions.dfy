/** The session manager, and one orchestrated run on it: create, loop, record the end, always close. */
module Sessions {
  import opened Results
  import opened Workflow
  import opened Orchestrator
  import EventBus

  datatype Session = Session(context: Context, closed: bool)

  datatype SessionError = SessionNotFound | SessionClosed

  class SessionManager {
    var sessions: map<string, Session>

    constructor ()
      ensures sessions == map[]
    {
      sessions := map[];
    }

    /** The new id stands for uuid4 and is assumed unused. */
    method CreateSession(id: string, context: Context)
      requires id !in sessions
      modifies this
      ensures sessions == old(sessions)[id := Session(context, false)]
    {
      sessions := sessions[id := Session(context, false)];
    }

    method UpdateContext(id: string, context: Context) returns (r: Result<Session, SessionError>)
      modifies this
      ensures id !in old(sessions) ==> r == Err(SessionNotFound) && sessions == old(sessions)
      ensures id in old(sessions) && old(sessions)[id].closed ==> r == Err(SessionClosed) && sessions == old(sessions)
      ensures id in old(sessions) && !old(sessions)[id].closed ==>
                r == Ok(Session(context, false)) && sessions == old(sessions)[id := Session(context, false)]
    {
      if id !in sessions {
        return Err(SessionNotFound);
      }
      if sessions[id].closed {
        return Err(SessionClosed);
      }
      var updated := sessions[id].(context := context);
      sessions := sessions[id := updated];
      return Ok(updated);
    }

    method Close(id: string) returns (r: Result<Session, SessionError>)
      modifies this
      ensures id !in old(sessions) ==> r == Err(SessionNotFound) && sessions == old(sessions)
      ensures id in old(sessions) ==>
                var closed := old(sessions)[id].(closed := true);
                r == Ok(closed) && sessions == old(sessions)[id := closed]
    {
      if id !in sessions {
        return Err(SessionNotFound);
      }
      var closed := sessions[id].(closed := true);
      sessions := sessions[id := closed];
      return Ok(closed);
    }
  }

  /**
   The context a run ends with. After an exception it is rebuilt from the context the run was given, so what the loop
   had recorded in the session by then is replaced.
  */
  function FinalContext(c: Context, end: End): Context {
    match end
    case Returns(last) => last
    case Raises(CancelledException) => c.WithStage(Cancelled, StateCancelled)
    case Raises(_) => c.WithStage(Failed, StateFailed)
  }

  class EngineeringOrchestrator {
    const manager: SessionManager
    const maxSteps: int

    constructor (manager: SessionManager, maxSteps: int)
      ensures this.manager == manager && this.maxSteps == maxSteps
    {
      this.manager := manager;
      this.maxSteps := maxSteps;
    }

    /** `_run_loop`; turns(i) is what the loop meets at step i. Every update finds the session open. */
    method RunLoop(id: string, context: Context, turns: nat -> Turn) returns (end: End, dispatched: seq<Stage>)
      requires id in manager.sessions && !manager.sessions[id].closed
      modifies manager
      ensures var run := Orchestrator.RunLoop(context, turns, maxSteps);
              && end == run.end && dispatched == run.dispatched
              && manager.sessions == old(manager.sessions)[id := Session(run.stored, false)]
    {
      hide Loop, ApplyAgentResult, HandleFailure, FinalizeTerminal;
      ghost var sessions := manager.sessions;
      ghost var whole := Orchestrator.RunLoop(context, turns, maxSteps);
      var current := Started(context);
      var stored := manager.UpdateContext(id, current);
      assert stored.Ok?;
      dispatched := [];
      var i := 0;
      assert [] + whole.dispatched == whole.dispatched;
      while i < maxSteps
        invariant manager.sessions == sessions[id := Session(current, false)]
        invariant forall e, d, s :: Shows(Loop(current, turns, i, maxSteps), e, d, s, dispatched) ==> Shows(whole, e, d, s, [])
      {
        LoopHead(current, turns, i, maxSteps, dispatched);
        var t := turns(i);
        if t.cancelled {
          assert dispatched + [] == dispatched;
          return Raises(CancelledException), dispatched;
        }
        if Terminal(current.stage) {
          assert dispatched + [] == dispatched;
          if Announced(current.stage) && t.terminal.Some? {
            return Raises(t.terminal.value), dispatched;
          }
          var terminal := FinalizeTerminal(current);
          stored := manager.UpdateContext(id, terminal);
          assert stored.Ok?;
          return Returns(terminal), dispatched;
        }
        if t.agent.None? {
          assert dispatched + [] == dispatched;
          return Raises(WorkflowException("No registered agent supports stage")), dispatched;
        }
        var active := current.WithActiveAgent(t.agent);
        if t.started.Some? {
          assert dispatched + [] == dispatched;
          return Raises(t.started.value), dispatched;
        }
        stored := manager.UpdateContext(id, active);
        assert stored.Ok?;
        dispatched := dispatched + [current.stage];
        match t.dispatch {
          case Throws(e) =>
            return Raises(e), dispatched;
          case DispatchFailed(e) =>
            if t.failed.Some? {
              return Raises(t.failed.value), dispatched;
            }
            var recovered := HandleFailure(active, e);
            stored := manager.UpdateContext(id, recovered);
            assert stored.Ok?;
            return Returns(recovered), dispatched;
          case Replied(r) =>
            if !r.Succeeded() && t.failed.Some? {
              return Raises(t.failed.value), dispatched;
            }
            match ApplyAgentResult(active, r) {
              case Err(e) =>
                return Raises(e), dispatched;
              case Ok(next) =>
                if t.completed.Some? {
                  return Raises(t.completed.value), dispatched;
                }
                stored := manager.UpdateContext(id, next);
                assert stored.Ok?;
                current := next;
            }
        }
        i := i + 1;
      }
      LoopOut(current, turns, i, maxSteps, dispatched);
      return Raises(WorkflowException("Workflow exceeded maximum orchestrator steps")), dispatched;
    }

    /**
     `run`: the session ends closed with the final context, unless a subscriber to the very first publication raises:
     then it stays open with the initial one. The call gives the summary's context, or the exception of `Outcome`.
    */
    method Run(id: string, context: Context, turns: nat -> Turn, news: News) returns (r: Result<Context, Exception>)
      requires id !in manager.sessions
      modifies manager
      ensures var end := Orchestrator.RunLoop(context, turns, maxSteps).end;
              && manager.sessions == old(manager.sessions)[id := if news.started.Some? then Session(context, false)
                                                                 else Session(FinalContext(context, end), true)]
              && r == Outcome(context, end, news)
      ensures news.started.None? ==>
                var end, left := Orchestrator.RunLoop(context, turns, maxSteps).end, manager.sessions[id];
                left.closed && left.context == match end
                  case Returns(last) => last
                  case Raises(CancelledException) =>
                    context.(stage := Cancelled, state := StateCancelled, visited := context.visited + [StateCancelled])
                  case Raises(_) =>
                    context.(stage := Failed, state := StateFailed, visited := context.visited + [StateFailed])
    {
      StoredAtEnd(Started(context), turns, 0, maxSteps);
      hide Loop, FinalContext, Started, Outcome;
      manager.CreateSession(id, context);
      if news.started.Some? {
        return Err(news.started.value);
      }
      var end, _ := RunLoop(id, context, turns);
      r := Conclude(id, context, end, news);
      FinalOfRaise(context, end);
    }

    /** The rest of `run` after its loop: the session of a loop that returned holds the context it returned. */
    method Conclude(id: string, context: Context, end: End, news: News) returns (r: Result<Context, Exception>)
      requires id in manager.sessions && !manager.sessions[id].closed && news.started.None?
      requires end.Returns? ==> manager.sessions[id].context == end.context
      modifies manager
      ensures manager.sessions == old(manager.sessions)[id := Session(FinalContext(context, end), true)]
      ensures r == Outcome(context, end, news)
    {
      hide FinalContext;
      FinalOfReturn(context, end);
      var final := FinalContext(context, end);
      r := Ok(final);
      if end.Raises? {
        var stored := manager.UpdateContext(id, final);
        assert stored.Ok?;
        if news.ended.Some? {
          r := Err(news.ended.value);
        } else if end.exception.WorkflowException? {
          r := Err(end.exception);
        }
      }
      var closed := manager.Close(id);
      assert closed.Ok?;
      if r.Ok? && news.summarized.Some? {
        r := Err(news.summarized.value);
      }
    }
  }

  lemma {:induction false} FinalOfReturn(context: Context, end: End)
    ensures end.Returns? ==> FinalContext(context, end) == end.context
  {
  }

  lemma {:induction false} FinalOfRaise(c: Context, end: End)
    ensures end == Raises(CancelledException) ==>
              FinalContext(c, end) == c.(stage := Cancelled, state := StateCancelled, visited := c.visited + [StateCancelled])
    ensures end.Raises? && !end.exception.CancelledException? ==>
              FinalContext(c, end) == c.(stage := Failed, state := StateFailed, visited := c.visited + [StateFailed])
  {
  }

  /**
   Where a run leaves its session, by what happened in it. If the loop returned, at the stage it returned. Otherwise at
   Cancelled if the token was cancelled at a head or a dispatch threw the cancellation, and then only or when a subscriber
   raised it; and at Failed in every other case. A run that raised is known by its last visited state.
  */
  lemma {:induction false} SessionEndsAt(c: Context, turns: nat -> Turn, maxSteps: int)
    ensures var run := RunLoop(c, turns, maxSteps);
            var final := FinalContext(c, run.end);
            && (run.end.Returns? ==> final == run.end.context)
            && (run.end.Raises? ==>
                  && final.visited == c.visited + [final.state] && final.retryCount == c.retryCount
                  && (final.stage == Cancelled || final.stage == Failed) && final.state == StateForStage(final.stage))
            && (CancelledAt(run, turns, 0) ==> run.end.Raises? && final.stage == Cancelled)
            && (run.end.Raises? && final.stage == Cancelled && !CancelledAt(run, turns, 0) ==>
                  run.heads != [] && SubscriberCancels(turns(|run.heads| - 1)))
            && (run.end.Raises? && run.end.exception.WorkflowException? ==> final.stage == Failed)
  {
    hide RunLoop, Loop, CancelledAt, SubscriberCancels;
    CancelledExactly(Started(c), turns, 0, maxSteps);
    assert RunLoop(c, turns, maxSteps) == Loop(Started(c), turns, 0, maxSteps) by {
      LoopOfRun(c, turns, maxSteps);
    }
  }

  lemma {:induction false} LoopOfRun(c: Context, turns: nat -> Turn, maxSteps: int)
    ensures RunLoop(c, turns, maxSteps) == Loop(Started(c), turns, 0, maxSteps)
  {
  }

  /**
   The publications of a run outside its loop: "WorkflowStarted" before it, "WorkflowCancelled" or "WorkflowFailed"
   when the loop raises, and "WorkflowSummaryGenerated" at the end.
  */
  datatype News = News(started: Publication, ended: Publication, summarized: Publication)

  /** What the caller of `run` gets: the first exception on its way, or the final context. */
  function Outcome(context: Context, end: End, news: News): Result<Context, Exception> {
    if news.started.Some? then Err(news.started.value)
    else if end.Raises? && news.ended.Some? then Err(news.ended.value)
    else if end.Raises? && end.exception.WorkflowException? then Err(end.exception)
    else if news.summarized.Some? then Err(news.summarized.value)
    else Ok(FinalContext(context, end))
  }

  /** The exception that leaves the call is the first raised: at the start, for the loop's end, by the loop, in the summary. */
  lemma {:induction false} FirstExceptionLeaves(context: Context, end: End, news: News)
    ensures var r := Outcome(context, end, news);
            && (news.started.Some? ==> r == Err(news.started.value))
            && (news.started.None? && end.Raises? && news.ended.Some? ==> r == Err(news.ended.value))
            && (news.started.None? && end.Raises? && news.ended.None? && end.exception.WorkflowException? ==> r == Err(end.exception))
            && (news.started.None? && (end.Returns? || (news.ended.None? && !end.exception.WorkflowException?)) ==>
                  r == if news.summarized.Some? then Err(news.summarized.value) else Ok(FinalContext(context, end)))
  {
  }

  /**
   Exactly when an exception leaves the call, and exactly when nothing but a workflow exception can: the latter holds
   for every end of the loop if and only if no subscriber outside it raises anything else.
  */
  lemma {:induction false} ExceptionLeaves(context: Context, end: End, news: News)
    ensures Outcome(context, end, news).Err?
            <==> || news.started.Some?
                 || (end.Raises? && (end.exception.WorkflowException? || news.ended.Some?))
                 || news.summarized.Some?
    ensures (forall e: End :: Outcome(context, e, news).Err? ==> Outcome(context, e, news).error.WorkflowException?)
            <==> if news.started.Some? then news.started.value.WorkflowException?
                 else (news.ended.Some? ==> news.ended.value.WorkflowException?)
                      && (news.summarized.Some? ==> news.summarized.value.WorkflowException?)
  {
    if news.started.None? {
      assert news.ended.Some? ==> Outcome(context, Raises(CancelledException), news) == Err(news.ended.value);
      assert news.summarized.Some? ==> Outcome(context, Returns(context), news) == Err(news.summarized.value);
    } else {
      assert Outcome(context, Returns(context), news) == Err(news.started.value);
    }
  }

  /**
   What a run keeps of the loop's record: everything when the loop returns; when it raises, nothing but the one
   visited state added for the end, whatever had been recorded by then.
  */
  lemma {:induction false} RecordKept(c: Context, turns: nat -> Turn, maxSteps: int)
    requires c.retryCount >= 0
    ensures var run := RunLoop(c, turns, maxSteps);
            var final := FinalContext(c, run.end);
            if run.end.Returns? then
              c.timeline < final.timeline && final.artifacts == c.artifacts + ArtifactsOf(run.successes)
            else
              final.timeline == c.timeline && final.artifacts == c.artifacts && final.retryCount == c.retryCount
              && |final.visited| == |c.visited| + 1
  {
    Accumulates(Started(c), turns, 0, maxSteps);
  }

  /**
   A subscriber to every event that raises: the first publication of the run finds it, the session stays open with the
   context it was created with, and the subscriber's exception leaves the call.
  */
  method RunWithRaisingSubscriber(orchestrator: EngineeringOrchestrator, id: string, context: Context, turns: nat -> Turn)
    returns (r: Result<Context, Exception>)
    requires id !in orchestrator.manager.sessions
    modifies orchestrator.manager
    ensures orchestrator.manager.sessions == old(orchestrator.manager.sessions)[id := Session(context, false)]
    ensures r == Err(OtherException("subscriber"))
  {
    hide Orchestrator.RunLoop;
    var bus := new EventBus.InMemoryEventBus();
    var subscription := bus.Subscribe(EventBus.WILDCARD, 0);
    assert subscription.value in EventBus.Receivers(bus.View(), "WorkflowStarted");
    var _, raised := bus.Publish("WorkflowStarted", _ => EventBus.Reaction([], true));
    var started := if raised then Some(OtherException("subscriber")) else None;
    r := orchestrator.Run(id, context, turns, News(started, None, None));
  }
}
