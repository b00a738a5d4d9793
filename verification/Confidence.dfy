/** The weighted confidence score, over the reals, and what it recommends. */
module Confidence {

  // ----- thresholds -----

  datatype Band = VeryHigh | High | Medium | Low | Critical

  datatype Recommendation = AutoPr | Proceed | RetryAllowed | AdditionalContext | Escalate

  datatype Thresholds = Thresholds(autoPr: int, proceed: int, retryAllowed: int, additionalContext: int) {
    function RecommendationFor(score: real): Recommendation {
      if score >= autoPr as real then AutoPr
      else if score >= proceed as real then Proceed
      else if score >= retryAllowed as real then RetryAllowed
      else if score >= additionalContext as real then AdditionalContext
      else Escalate
    }

    function BandFor(score: real): Band {
      if score >= autoPr as real then VeryHigh
      else if score >= proceed as real then High
      else if score >= retryAllowed as real then Medium
      else if score >= additionalContext as real then Low
      else Critical
    }
  }

  const DEFAULT := Thresholds(90, 75, 60, 40)

  /** For any thresholds, ordered or not, the band and the recommendation determine each other. */
  lemma {:induction false} BandMatchesRecommendation(t: Thresholds, a: real, b: real)
    ensures t.BandFor(a) == t.BandFor(b) <==> t.RecommendationFor(a) == t.RecommendationFor(b)
  {
  }

  /** The default bands, by their bounds. */
  lemma {:induction false} DefaultBands(score: real)
    ensures DEFAULT.RecommendationFor(score) == AutoPr <==> 90.0 <= score
    ensures DEFAULT.RecommendationFor(score) == Proceed <==> 75.0 <= score < 90.0
    ensures DEFAULT.RecommendationFor(score) == RetryAllowed <==> 60.0 <= score < 75.0
    ensures DEFAULT.RecommendationFor(score) == AdditionalContext <==> 40.0 <= score < 60.0
    ensures DEFAULT.BandFor(score) == VeryHigh <==> 90.0 <= score
    ensures DEFAULT.BandFor(score) == Critical <==> score < 40.0
  {
  }

  // ----- the engine -----

  /** What the stage scorers look at. */
  datatype Evidence = Evidence(
    hasTitle: bool,
    hasUrl: bool,
    repositoryResolved: bool,
    artifacts: int,
    timelineEntries: int,
    status: string,
    finalStage: string,
    retries: int,
    failures: int)

  datatype StageConfidence = StageConfidence(stage: string, score: real, weight: real)

  datatype Assessment = Assessment(
    overall: real,
    band: Band,
    perStage: seq<StageConfidence>,
    history: seq<StageConfidence>,
    recommendation: Recommendation)

  function Least(a: real, b: real): real {
    if a < b then a else b
  }

  function Greatest(a: real, b: real): real {
    if a < b then b else a
  }

  function Choose(c: bool, a: real, b: real): real {
    if c then a else b
  }

  function IssueScore(e: Evidence): real {
    Least(Choose(e.hasTitle, 85.0, 45.0) + Choose(e.hasUrl, 5.0, 0.0), 100.0)
  }

  function SearchScore(e: Evidence): real {
    65.0 + Least(25.0, e.artifacts as real * 5.0)
  }

  function ContextScore(e: Evidence): real {
    55.0 + Least(35.0, e.timelineEntries as real * 2.0)
  }

  function RetryScore(e: Evidence): real {
    Greatest(20.0, 100.0 - e.retries as real * 18.0)
  }

  function FailureScore(e: Evidence): real {
    Greatest(10.0, 95.0 - e.failures as real * 25.0)
  }

  function Stages(e: Evidence): seq<StageConfidence> {
    var completed := e.status == "completed";
    [
      StageConfidence("issue_understanding", IssueScore(e), 1.1),
      StageConfidence("repository_understanding", Choose(e.repositoryResolved, 85.0, 50.0), 1.0),
      StageConfidence("repository_search", SearchScore(e), 0.8),
      StageConfidence("context_quality", ContextScore(e), 1.1),
      StageConfidence("prompt_quality", Choose(e.status in ["completed", "running"], 80.0, 55.0), 0.7),
      StageConfidence("ai_response", Choose(e.finalStage == "Completed", 85.0, 60.0), 1.0),
      StageConfidence("patch_quality", Choose(e.finalStage in ["Completed", "Review"], 85.0, 55.0), 1.2),
      StageConfidence("patch_validation", Choose(completed, 90.0, 50.0), 1.3),
      StageConfidence("test_results", Choose(completed, 85.0, 50.0), 1.2),
      StageConfidence("retry_count", RetryScore(e), 0.9),
      StageConfidence("failure_history", FailureScore(e), 1.0)
    ]
  }

  function WeightedTotal(stages: seq<StageConfidence>): real
    decreases |stages|
  {
    if stages == [] then 0.0
    else WeightedTotal(stages[..|stages| - 1]) + stages[|stages| - 1].score * stages[|stages| - 1].weight
  }

  function Weight(stages: seq<StageConfidence>): real
    decreases |stages|
  {
    if stages == [] then 0.0 else Weight(stages[..|stages| - 1]) + stages[|stages| - 1].weight
  }

  /** round(x, 2): the nearest hundredth, an even one when two are equally near. */
  function Round(x: real): real {
    var n := (x * 100.0).Floor;
    var rest := x * 100.0 - n as real;
    (if rest < 0.5 || (rest == 0.5 && n % 2 == 0) then n else n + 1) as real / 100.0
  }

  function Overall(stages: seq<StageConfidence>): real
    requires Weight(stages) != 0.0
  {
    Round(Greatest(0.0, Least(100.0, WeightedTotal(stages) / Weight(stages))))
  }

  class ConfidenceEngine {
    const thresholds: Thresholds
    var history: seq<StageConfidence>

    constructor (thresholds: Thresholds)
      ensures this.thresholds == thresholds && history == []
    {
      this.thresholds := thresholds;
      history := [];
    }

    /** `calculate`: the sums run over the stages, and the history keeps every stage ever scored. */
    method Calculate(e: Evidence) returns (a: Assessment)
      modifies this
      ensures history == old(history) + Stages(e)
      ensures Weight(Stages(e)) == 11.3
      ensures a == Assessment(Overall(Stages(e)), thresholds.BandFor(Overall(Stages(e))), Stages(e), history,
                              thresholds.RecommendationFor(Overall(Stages(e))))
    {
      hide Stages, Round, WeightedTotal, Weight;
      var stages := Stages(e);
      history := history + stages;
      var weightedTotal, weight := 0.0, 0.0;
      EmptySums();
      for i := 0 to |stages|
        invariant history == old(history) + stages
        invariant weightedTotal == WeightedTotal(stages[..i]) && weight == Weight(stages[..i])
      {
        SumsSnoc(stages, i);
        weightedTotal := weightedTotal + stages[i].score * stages[i].weight;
        weight := weight + stages[i].weight;
      }
      assert stages[..|stages|] == stages;
      StageWeights(e);
      var overall := Round(Greatest(0.0, Least(100.0, weightedTotal / weight)));
      a := Assessment(overall, thresholds.BandFor(overall), stages, history, thresholds.RecommendationFor(overall));
    }
  }

  lemma {:induction false} EmptySums()
    ensures WeightedTotal([]) == 0.0 && Weight([]) == 0.0
  {
  }

  lemma {:induction false} SumsSnoc(stages: seq<StageConfidence>, i: nat)
    requires i < |stages|
    ensures WeightedTotal(stages[..i + 1]) == WeightedTotal(stages[..i]) + stages[i].score * stages[i].weight
    ensures Weight(stages[..i + 1]) == Weight(stages[..i]) + stages[i].weight
  {
    assert stages[..i + 1][..i] == stages[..i];
  }

  // ----- the total in closed form -----

  /** The weighted total of the eleven stages. */
  function Total(e: Evidence): real {
    1.1 * IssueScore(e) + Choose(e.repositoryResolved, 85.0, 50.0) + 0.8 * SearchScore(e) + 1.1 * ContextScore(e)
    + 0.7 * Choose(e.status in ["completed", "running"], 80.0, 55.0) + Choose(e.finalStage == "Completed", 85.0, 60.0)
    + 1.2 * Choose(e.finalStage in ["Completed", "Review"], 85.0, 55.0) + 1.3 * Choose(e.status == "completed", 90.0, 50.0)
    + 1.2 * Choose(e.status == "completed", 85.0, 50.0) + 0.9 * RetryScore(e) + FailureScore(e)
  }

  lemma {:induction false} FirstStages(e: Evidence)
    ensures var s := Stages(e);
            |s| == 11 && WeightedTotal(s[..6])
            == 1.1 * IssueScore(e) + Choose(e.repositoryResolved, 85.0, 50.0) + 0.8 * SearchScore(e) + 1.1 * ContextScore(e)
               + 0.7 * Choose(e.status in ["completed", "running"], 80.0, 55.0) + Choose(e.finalStage == "Completed", 85.0, 60.0)
            && Weight(s[..6]) == 5.7
  {
    hide WeightedTotal, Weight, Choose, IssueScore, SearchScore, ContextScore, RetryScore, FailureScore;
    var s := Stages(e);
    EmptySums();
    assert s[..0] == [];
    SumsSnoc(s, 0);
    SumsSnoc(s, 1);
    SumsSnoc(s, 2);
    SumsSnoc(s, 3);
    SumsSnoc(s, 4);
    SumsSnoc(s, 5);
  }

  lemma {:induction false} StageWeights(e: Evidence)
    ensures Weight(Stages(e)) == 11.3 && WeightedTotal(Stages(e)) == Total(e)
  {
    hide WeightedTotal, Weight, Choose, IssueScore, SearchScore, ContextScore, RetryScore, FailureScore;
    var s := Stages(e);
    FirstStages(e);
    SumsSnoc(s, 6);
    SumsSnoc(s, 7);
    SumsSnoc(s, 8);
    SumsSnoc(s, 9);
    SumsSnoc(s, 10);
    assert s[..11] == s;
  }

  /** The score an assessment reports. */
  function Score(e: Evidence): real {
    Round(Greatest(0.0, Least(100.0, Total(e) / 11.3)))
  }

  lemma {:induction false} ScoreIsOverall(e: Evidence)
    ensures Weight(Stages(e)) == 11.3 && Overall(Stages(e)) == Score(e)
  {
    hide Stages, WeightedTotal, Weight, Total, Round;
    StageWeights(e);
  }

  // ----- rounding -----

  lemma {:induction false} RoundMonotone(a: real, b: real)
    requires a <= b
    ensures Round(a) <= Round(b)
  {
    var x, y := a * 100.0, b * 100.0;
    assert x <= y && x.Floor <= y.Floor;
  }

  lemma {:induction false} RoundOfHundredths(n: int)
    ensures Round(n as real / 100.0) == n as real / 100.0
  {
  }

  /** Rounding gives the nearest hundredth, and between two equally near ones the even one. */
  lemma {:induction false} RoundNearest(x: real) returns (n: int)
    ensures Round(x) == n as real / 100.0 && -0.5 <= x * 100.0 - n as real <= 0.5
    ensures x * 100.0 - n as real in {-0.5, 0.5} ==> n % 2 == 0
  {
    var floor := (x * 100.0).Floor;
    var rest := x * 100.0 - floor as real;
    n := if rest < 0.5 || (rest == 0.5 && floor % 2 == 0) then floor else floor + 1;
    assert 0.0 <= rest < 1.0;
  }

  // ----- what each piece of evidence is worth -----

  /** The part of the total that comes from flags, status and stage, and the part that comes from counters. */
  function Marks(e: Evidence): real {
    1.1 * IssueScore(e) + Choose(e.repositoryResolved, 85.0, 50.0)
    + 0.7 * Choose(e.status in ["completed", "running"], 80.0, 55.0) + Choose(e.finalStage == "Completed", 85.0, 60.0)
    + 1.2 * Choose(e.finalStage in ["Completed", "Review"], 85.0, 55.0) + 1.3 * Choose(e.status == "completed", 90.0, 50.0)
    + 1.2 * Choose(e.status == "completed", 85.0, 50.0)
  }

  function Counters(e: Evidence): real {
    0.8 * SearchScore(e) + 1.1 * ContextScore(e) + 0.9 * RetryScore(e) + FailureScore(e)
  }

  lemma {:induction false} TotalSplits(e: Evidence)
    ensures Total(e) == Marks(e) + Counters(e)
  {
    hide IssueScore, SearchScore, ContextScore, RetryScore, FailureScore, Choose;
  }

  lemma {:induction false} SameMarks(e: Evidence, f: Evidence)
    requires e.hasTitle == f.hasTitle && e.hasUrl == f.hasUrl && e.repositoryResolved == f.repositoryResolved
    requires e.status == f.status && e.finalStage == f.finalStage
    ensures Marks(e) == Marks(f)
  {
    hide Choose, Least;
  }

  lemma {:induction false} SameCounters(e: Evidence, f: Evidence)
    requires e.artifacts == f.artifacts && e.timelineEntries == f.timelineEntries && e.retries == f.retries && e.failures == f.failures
    ensures Counters(e) == Counters(f)
  {
    hide Least, Greatest;
  }

  /**
   What one more of each counter is worth in the weighted total: a retry costs 16.2, a failure 25, an artifact brings 4 and
   a timeline entry 2.2. A fifth retry or fourth failure costs less, from then on they are free; from five artifacts and
   eighteen entries on, further ones bring nothing.
  */
  lemma {:induction false} EachCounts(e: Evidence)
    requires Counted(e)
    ensures e.retries < 4 ==> Total(e.(retries := e.retries + 1)) == Total(e) - 16.2
    ensures e.retries >= 5 ==> Total(e.(retries := e.retries + 1)) == Total(e)
    ensures e.failures < 3 ==> Total(e.(failures := e.failures + 1)) == Total(e) - 25.0
    ensures e.failures >= 4 ==> Total(e.(failures := e.failures + 1)) == Total(e)
    ensures e.artifacts < 5 ==> Total(e.(artifacts := e.artifacts + 1)) == Total(e) + 4.0
    ensures e.artifacts >= 5 ==> Total(e.(artifacts := e.artifacts + 1)) == Total(e)
    ensures e.timelineEntries < 17 ==> Total(e.(timelineEntries := e.timelineEntries + 1)) == Total(e) + 2.2
    ensures e.timelineEntries >= 18 ==> Total(e.(timelineEntries := e.timelineEntries + 1)) == Total(e)
  {
    hide Total, Marks, Counters, Counted;
    CounterStep(e, e.(retries := e.retries + 1));
    CounterStep(e, e.(failures := e.failures + 1));
    CounterStep(e, e.(artifacts := e.artifacts + 1));
    CounterStep(e, e.(timelineEntries := e.timelineEntries + 1));
    RetryAndFailureWorth(e);
    ArtifactAndEntryWorth(e);
  }

  lemma {:induction false} CounterStep(e: Evidence, f: Evidence)
    requires e.hasTitle == f.hasTitle && e.hasUrl == f.hasUrl && e.repositoryResolved == f.repositoryResolved
    requires e.status == f.status && e.finalStage == f.finalStage
    ensures Total(f) - Total(e) == Counters(f) - Counters(e)
  {
    hide Total, Marks, Counters;
    TotalSplits(e);
    TotalSplits(f);
    SameMarks(e, f);
  }

  lemma {:induction false} RetryAndFailureWorth(e: Evidence)
    requires Counted(e)
    ensures e.retries < 4 ==> Counters(e.(retries := e.retries + 1)) == Counters(e) - 16.2
    ensures e.retries >= 5 ==> Counters(e.(retries := e.retries + 1)) == Counters(e)
    ensures e.failures < 3 ==> Counters(e.(failures := e.failures + 1)) == Counters(e) - 25.0
    ensures e.failures >= 4 ==> Counters(e.(failures := e.failures + 1)) == Counters(e)
  {
    hide Least;
  }

  lemma {:induction false} ArtifactAndEntryWorth(e: Evidence)
    requires Counted(e)
    ensures e.artifacts < 5 ==> Counters(e.(artifacts := e.artifacts + 1)) == Counters(e) + 4.0
    ensures e.artifacts >= 5 ==> Counters(e.(artifacts := e.artifacts + 1)) == Counters(e)
    ensures e.timelineEntries < 17 ==> Counters(e.(timelineEntries := e.timelineEntries + 1)) == Counters(e) + 2.2
    ensures e.timelineEntries >= 18 ==> Counters(e.(timelineEntries := e.timelineEntries + 1)) == Counters(e)
  {
    hide Greatest;
  }

  /** What each mark is worth in it: a title 44, a link 5.5, a resolved repository 35, and status and final stage as listed. */
  lemma {:induction false} MarksCount(e: Evidence)
    ensures Total(e.(hasTitle := true)) == Total(e.(hasTitle := false)) + 44.0
    ensures Total(e.(hasUrl := true)) == Total(e.(hasUrl := false)) + 5.5
    ensures Total(e.(repositoryResolved := true)) == Total(e.(repositoryResolved := false)) + 35.0
    ensures Total(e.(status := "running")) == Total(e.(status := "failed")) + 17.5
    ensures Total(e.(status := "completed")) == Total(e.(status := "running")) + 94.0
    ensures Total(e.(finalStage := "Review")) == Total(e.(finalStage := "Failed")) + 36.0
    ensures Total(e.(finalStage := "Completed")) == Total(e.(finalStage := "Review")) + 25.0
  {
    hide Total, Marks, Counters;
    MarkStep(e.(hasTitle := false), e.(hasTitle := true));
    MarkStep(e.(hasUrl := false), e.(hasUrl := true));
    MarkStep(e.(repositoryResolved := false), e.(repositoryResolved := true));
    MarkStep(e.(status := "failed"), e.(status := "running"));
    MarkStep(e.(status := "running"), e.(status := "completed"));
    MarkStep(e.(finalStage := "Failed"), e.(finalStage := "Review"));
    MarkStep(e.(finalStage := "Review"), e.(finalStage := "Completed"));
    FlagsWorth(e);
    StatusWorth(e);
    StageWorth(e);
  }

  lemma {:induction false} MarkStep(e: Evidence, f: Evidence)
    requires e.artifacts == f.artifacts && e.timelineEntries == f.timelineEntries && e.retries == f.retries && e.failures == f.failures
    ensures Total(f) - Total(e) == Marks(f) - Marks(e)
  {
    hide Total, Marks, Counters;
    TotalSplits(e);
    TotalSplits(f);
    SameCounters(e, f);
  }

  lemma {:induction false} FlagsWorth(e: Evidence)
    ensures Marks(e.(hasTitle := true)) == Marks(e.(hasTitle := false)) + 44.0
    ensures Marks(e.(hasUrl := true)) == Marks(e.(hasUrl := false)) + 5.5
    ensures Marks(e.(repositoryResolved := true)) == Marks(e.(repositoryResolved := false)) + 35.0
  {
  }

  lemma {:induction false} StatusWorth(e: Evidence)
    ensures Marks(e.(status := "running")) == Marks(e.(status := "failed")) + 17.5
    ensures Marks(e.(status := "completed")) == Marks(e.(status := "running")) + 94.0
  {
    hide IssueScore;
    IssueOnly(e, e.(status := "running"));
    IssueOnly(e, e.(status := "failed"));
    IssueOnly(e, e.(status := "completed"));
    assert "running"[0] == 'r' && "completed"[0] == 'c' && "failed"[0] == 'f';
  }

  lemma {:induction false} StageWorth(e: Evidence)
    ensures Marks(e.(finalStage := "Review")) == Marks(e.(finalStage := "Failed")) + 36.0
    ensures Marks(e.(finalStage := "Completed")) == Marks(e.(finalStage := "Review")) + 25.0
  {
    hide IssueScore;
    IssueOnly(e, e.(finalStage := "Review"));
    IssueOnly(e, e.(finalStage := "Failed"));
    IssueOnly(e, e.(finalStage := "Completed"));
    assert "Review"[0] == 'R' && "Completed"[0] == 'C' && "Failed"[0] == 'F';
  }

  lemma {:induction false} IssueOnly(e: Evidence, f: Evidence)
    requires e.hasTitle == f.hasTitle && e.hasUrl == f.hasUrl
    ensures IssueScore(e) == IssueScore(f)
  {
  }

  // ----- the range of the score -----

  predicate Counted(e: Evidence) {
    e.artifacts >= 0 && e.timelineEntries >= 0 && e.retries >= 0 && e.failures >= 0
  }

  lemma {:induction false} TotalRange(e: Evidence)
    requires Counted(e)
    ensures 529.5 <= Total(e) <= 1002.0
  {
  }

  /**
   For all non-negative counters the clamp to 0..100 never acts and the score lies between 46.86 and 88.67, so under
   the default thresholds nothing is ever rated "very_high" and no pull request recommended outright, and nothing is
   ever "critical" and recommended for escalation.
  */
  lemma {:induction false} ScoreRange(e: Evidence)
    requires Counted(e)
    ensures 0.0 < Total(e) / 11.3 < 100.0
    ensures 46.86 <= Score(e) <= 88.67
    ensures DEFAULT.BandFor(Score(e)) in {High, Medium, Low}
    ensures DEFAULT.RecommendationFor(Score(e)) in {Proceed, RetryAllowed, AdditionalContext}
  {
    hide Total, Round;
    TotalRange(e);
    RoundMonotone(529.5 / 11.3, Total(e) / 11.3);
    RoundMonotone(Total(e) / 11.3, 1002.0 / 11.3);
    assert Round(529.5 / 11.3) == 46.86 && Round(1002.0 / 11.3) == 88.67 by {
      Ends();
    }
  }

  lemma {:induction false} Ends()
    ensures Round(529.5 / 11.3) == 46.86 && Round(1002.0 / 11.3) == 88.67
  {
    assert (529.5 / 11.3 * 100.0).Floor == 4685;
    assert (1002.0 / 11.3 * 100.0).Floor == 8867;
  }

  /**
   For any thresholds: some evidence is rated "very_high" if and only if that threshold is at most 88, and some is
   "critical" if and only if every threshold is at least 47.
  */
  lemma {:induction false} EndBandsReachable(t: Thresholds)
    ensures (exists e :: Counted(e) && t.BandFor(Score(e)) == VeryHigh) <==> t.autoPr <= 88
    ensures (exists e :: Counted(e) && t.BandFor(Score(e)) == Critical)
            <==> t.autoPr >= 47 && t.proceed >= 47 && t.retryAllowed >= 47 && t.additionalContext >= 47
  {
    hide Score;
    ScoreRangeReached();
    var worst := Evidence(false, false, false, 0, 0, "failed", "Failed", 5, 4);
    var best := Evidence(true, true, true, 5, 18, "completed", "Completed", 0, 0);
    assert Counted(worst) && Counted(best);
    forall e | Counted(e)
      ensures 46.86 <= Score(e) <= 88.67
    {
      ScoreRange(e);
    }
  }

  /** Both ends are reached. */
  lemma {:induction false} ScoreRangeReached()
    ensures Score(Evidence(false, false, false, 0, 0, "failed", "Failed", 5, 4)) == 46.86
    ensures Score(Evidence(true, true, true, 5, 18, "completed", "Completed", 0, 0)) == 88.67
  {
    hide Round;
    Ends();
    assert Total(Evidence(false, false, false, 0, 0, "failed", "Failed", 5, 4)) == 529.5;
    assert Total(Evidence(true, true, true, 5, 18, "completed", "Completed", 0, 0)) == 1002.0;
  }

  /** More retries or failures never raise the score; more artifacts or timeline entries never lower it. */
  lemma {:induction false} ScoreMonotone(e: Evidence, f: Evidence)
    requires e.hasTitle == f.hasTitle && e.hasUrl == f.hasUrl && e.repositoryResolved == f.repositoryResolved
    requires e.status == f.status && e.finalStage == f.finalStage
    requires e.retries >= f.retries && e.failures >= f.failures
    requires e.artifacts <= f.artifacts && e.timelineEntries <= f.timelineEntries
    ensures Score(e) <= Score(f)
  {
    hide Round;
    assert Total(e) <= Total(f);
    var a, b := Greatest(0.0, Least(100.0, Total(e) / 11.3)), Greatest(0.0, Least(100.0, Total(f) / 11.3));
    RoundMonotone(a, b);
  }

  // ----- what the controller's evidence leads to -----

  /** The evidence `execute` gathers when an exception ends it; it names neither the issue nor the repository. */
  function FailureEvidence(attempts: int): Evidence {
    Evidence(false, false, false, 0, 1, "failed", "Failed", attempts, attempts + 1)
  }

  /** The evidence of a pipeline result: completed when it has no errors. */
  function ResultEvidence(hasTitle: bool, hasUrl: bool, attempts: int, files: nat, errors: nat): Evidence {
    Evidence(hasTitle, hasUrl, true, files, 10, if errors == 0 then "completed" else "failed",
             if errors == 0 then "Completed" else "Failed", attempts, errors)
  }

  /** An execution that ends in an exception is always recommended for more context, on every attempt. */
  lemma {:induction false} FailureNeedsContext(attempts: nat)
    ensures DEFAULT.RecommendationFor(Score(FailureEvidence(attempts))) == AdditionalContext
  {
    hide Round;
    var e := FailureEvidence(attempts);
    ScoreRange(e);
    assert Total(e) <= 663.7;
    RoundMonotone(Total(e) / 11.3, 59.0);
    RoundOfHundredths(5900);
  }

  /** A result without errors that changes a file is always recommended to proceed, on every attempt. */
  lemma {:induction false} CompletedProceeds(hasTitle: bool, hasUrl: bool, attempts: nat, files: nat)
    requires files > 0
    ensures DEFAULT.RecommendationFor(Score(ResultEvidence(hasTitle, hasUrl, attempts, files, 0))) == Proceed
  {
    hide Round;
    var e := ResultEvidence(hasTitle, hasUrl, attempts, files, 0);
    ScoreRange(e);
    assert Total(e) >= 848.0;
    RoundMonotone(75.0, Total(e) / 11.3);
    RoundOfHundredths(7500);
  }

  /** With errors a result is never recommended to proceed, whatever it changed. */
  lemma {:induction false} ErrorsNeverProceed(hasTitle: bool, hasUrl: bool, attempts: nat, files: nat, errors: nat)
    requires errors > 0
    ensures DEFAULT.RecommendationFor(Score(ResultEvidence(hasTitle, hasUrl, attempts, files, errors))) in {RetryAllowed, AdditionalContext}
  {
    hide Round;
    var e := ResultEvidence(hasTitle, hasUrl, attempts, files, errors);
    ScoreRange(e);
    assert Total(e) <= 788.0;
    RoundMonotone(Total(e) / 11.3, 74.0);
    RoundOfHundredths(7400);
  }
}
