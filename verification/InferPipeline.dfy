/**
 The infer pipeline: generate a patch, repair it until it validates, apply it, repair it until it applies.
 The methods run the validator and the applier on a workspace, for an arbitrary provider and an arbitrary git; what is
 said about logs holds for arbitrary verdicts and results.
*/
module InferPipeline {
  import opened Results
  import opened PySeq
  import opened Text
  import opened DiffNames
  import Applying
  import Patches

  datatype Patch = Patch(diff: string, raw: string) {
    /** What a repair prompt quotes of this patch. */
    function Output(): string {
      if raw != "" then raw else diff
    }
  }

  /** The part of the validator's answer that the loops use. */
  datatype Verdict = Verdict(errors: seq<string>, warnings: seq<string>, files: seq<string>) {
    predicate Valid() {
      errors == []
    }
  }

  datatype Applied = Applied(applied: bool, errors: seq<string>)

  /** A result is without errors exactly when it is applied. */
  predicate Honest(a: Applied) {
    a.applied <==> a.errors == []
  }

  datatype Prompt = First | Repair(previous: string, failures: seq<string>)

  /** The calls of a run: the n-th generation with its prompt, or an application of the n-th patch. */
  datatype Event = Generate(n: nat, prompt: Prompt) | Apply(n: nat, result: Applied)

  /** The world of one run: whether the n-th provider call raises, the patch it gives, the verdict on it, and the
      result of applying it. */
  datatype World = World(raises: nat -> bool, patch: nat -> Patch, verdict: nat -> Verdict, apply: nat -> Applied)

  ghost predicate HonestWorld(w: World) {
    forall n: nat :: Honest(w.apply(n))
  }

  // ----- the validator and the applier -----

  /**
   What a run really meets: the provider, the limits, the repository as each validation finds it, and git on each
   application.
  */
  datatype Ground = Ground(
    raises: nat -> bool,
    patch: nat -> Patch,
    limits: Patches.Limits,
    surroundings: nat -> Patches.Surroundings,
    git: nat -> Applying.GitApply,
    dryRun: bool)

  function VerdictOf(g: Ground, n: nat): Verdict {
    var v := Patches.ValidationOf(g.patch(n).diff, g.limits, g.surroundings(n));
    Verdict(v.errors, v.warnings, v.files)
  }

  /** The names the applier reads from the n-th patch itself. */
  function NamesOf(g: Ground, n: nat): seq<string> {
    ModifiedFiles(SplitLines(g.patch(n).diff))
  }

  function ResultOf(g: Ground, n: nat): Applied {
    var r := Applying.ResultOf(NamesOf(g, n), g.git(n), g.dryRun);
    Applied(r.applied, r.errors)
  }

  function WorldOf(g: Ground): World {
    World(g.raises, g.patch, (n: nat) => VerdictOf(g, n), (n: nat) => ResultOf(g, n))
  }

  lemma {:induction false} GroundIsHonest(g: Ground)
    ensures HonestWorld(WorldOf(g))
  {
    hide NamesOf;
  }

  /** The workspace after the applications in a log. */
  function FilesAfter(files: Applying.Files, g: Ground, log: seq<Event>): Applying.Files
    decreases |log|
  {
    if log == [] then files
    else
      var before := FilesAfter(files, g, log[..|log| - 1]);
      match log[|log| - 1]
      case Generate(_, _) => before
      case Apply(n, _) => Applying.Applied(before, Applying.PathsOf(NamesOf(g, n)), g.git(n), g.dryRun, true)
  }

  lemma {:induction false} FilesAfterNext(files: Applying.Files, g: Ground, log: seq<Event>, e: Event)
    ensures FilesAfter(files, g, log + [e])
         == match e
            case Generate(_, _) => FilesAfter(files, g, log)
            case Apply(n, _) =>
              Applying.Applied(FilesAfter(files, g, log), Applying.PathsOf(NamesOf(g, n)), g.git(n), g.dryRun, true)
  {
    hide Applying.Applied, NamesOf;
    assert (log + [e])[..|log|] == log;
  }

  /** Validating the n-th patch. */
  method Judge(g: Ground, n: nat) returns (v: Verdict)
    ensures v == WorldOf(g).verdict(n)
    ensures v.Valid() <==> Patches.Acceptable(g.patch(n).diff, g.limits, g.surroundings(n))
  {
    hide Patches.Acceptable, Patches.ValidationOf;
    var r := Patches.ValidatePatch(g.patch(n).diff, g.limits, g.surroundings(n));
    v := Verdict(r.errors, r.warnings, r.files);
  }

  /** Applying the n-th patch to the workspace. */
  method TryPatch(workspace: Applying.Workspace, g: Ground, n: nat) returns (a: Applied)
    modifies workspace
    ensures a == WorldOf(g).apply(n) && Honest(a)
    ensures workspace.files
         == Applying.Applied(old(workspace.files), Applying.PathsOf(NamesOf(g, n)), g.git(n), g.dryRun, true)
  {
    hide Applying.Applied, Applying.PathsOf;
    var r := workspace.ApplyPatch(NamesOf(g, n), g.git(n), g.dryRun, true);
    a := Applied(r.applied, r.errors);
  }

  datatype InferResult = InferResult(errors: seq<string>, files: seq<string>, recommended: string)

  // ----- what a log means -----

  function Generations(log: seq<Event>): nat {
    if log == [] then 0 else Generations(log[..|log| - 1]) + if log[|log| - 1].Generate? then 1 else 0
  }

  function Successes(log: seq<Event>): nat {
    if log == [] then 0
    else Successes(log[..|log| - 1]) + if log[|log| - 1].Apply? && log[|log| - 1].result.applied then 1 else 0
  }

  /** The most recent application. */
  function LastApplied(log: seq<Event>): Option<Applied> {
    if log == [] then None
    else if log[|log| - 1].Apply? then Some(log[|log| - 1].result)
    else LastApplied(log[..|log| - 1])
  }

  /**
   The failures the next repair prompt reports: before any application those of the newest patch's validation;
   afterwards those of the most recent application, whatever validation said since.
  */
  function Reported(w: World, log: seq<Event>, n: nat): seq<string> {
    match LastApplied(log)
    case None => w.verdict(n).errors + w.verdict(n).warnings
    case Some(a) => NonEmpty(a.errors)
  }

  /** The last patch was refused: by the validator just now, or by an application. */
  predicate Refused(w: World, log: seq<Event>) {
    log != [] && log[|log| - 1].Generate? ==> !w.verdict(log[|log| - 1].n).Valid()
  }

  /** One event is allowed after the log so far. */
  predicate Allowed(w: World, log: seq<Event>, e: Event) {
    match e
    case Generate(n, prompt) =>
      && n == Generations(log) && !w.raises(n)
      && Successes(log) == 0 && Refused(w, log)
      && prompt == if n == 0 then First else Repair(w.patch(n - 1).Output(), Reported(w, log, n - 1))
    case Apply(n, result) =>
      && log != [] && log[|log| - 1].Generate? && log[|log| - 1].n == n
      && w.verdict(n).Valid()
      && result == w.apply(n)
  }

  /** A log in which every event is allowed: patches are numbered, a new one is asked for only when the last was refused,
      only the newest and valid one is applied, and nothing happens after a success. */
  ghost predicate WellLogged(w: World, log: seq<Event>) {
    forall i :: 0 <= i < |log| ==> Allowed(w, log[..i], log[i])
  }

  /** The errors that the last event of a log leaves. */
  function ErrorsAfter(w: World, log: seq<Event>): seq<string> {
    if log == [] then ["insufficient repository investigation evidence"]
    else match log[|log| - 1]
      case Generate(n, _) => w.verdict(n).errors
      case Apply(_, result) => result.errors
  }

  /** The newest patch is valid and the last thing that happened is its successful application. */
  predicate AppliedNewest(w: World, log: seq<Event>) {
    log != [] && log[|log| - 1].Apply? && log[|log| - 1].result.applied
  }

  lemma {:induction false} Extend(w: World, log: seq<Event>, e: Event)
    requires WellLogged(w, log) && Allowed(w, log, e)
    ensures WellLogged(w, log + [e])
    ensures Generations(log + [e]) == Generations(log) + (if e.Generate? then 1 else 0)
    ensures Successes(log + [e]) == Successes(log) + (if e.Apply? && e.result.applied then 1 else 0)
    ensures LastApplied(log + [e]) == if e.Apply? then Some(e.result) else LastApplied(log)
  {
    hide Allowed;
    var all := log + [e];
    assert all[..|log|] == log;
    forall i | 0 <= i < |all|
      ensures Allowed(w, all[..i], all[i])
    {
      if i < |log| {
        assert all[..i] == log[..i];
        assert Allowed(w, log[..i], log[i]);
      }
    }
  }

  // ----- the run -----

  /** The number of times `for attempt in range(maxAttempts)` runs. */
  function Attempts(maxAttempts: int): nat {
    if maxAttempts > 0 then maxAttempts else 0
  }

  /** A patch that validates and then applies. */
  predicate Works(w: World, k: nat) {
    w.verdict(k).Valid() && w.apply(k).applied
  }

  /** The first valid patch from one number on, or the last one allowed. */
  function FirstValid(w: World, from: nat, last: nat): (k: nat)
    requires from <= last
    ensures from <= k <= last
    decreases last - from
  {
    if from == last || w.verdict(from).Valid() then from else FirstValid(w, from + 1, last)
  }

  /** The first patch that works, from one number on, or the last one allowed. */
  function FirstWorking(w: World, from: nat, last: nat): (k: nat)
    requires from <= last
    ensures from <= k <= last
    decreases last - from
  {
    if from == last || Works(w, from) then from else FirstWorking(w, from + 1, last)
  }

  ghost predicate NoneValid(w: World, from: nat, n: nat) {
    forall k: nat :: from <= k < n ==> !w.verdict(k).Valid()
  }

  ghost predicate NoneWorks(w: World, from: nat, n: nat) {
    forall k: nat :: from <= k < n ==> !Works(w, k)
  }

  /** None of the first n provider calls raises. */
  ghost predicate NoRaise(w: World, n: nat) {
    forall k: nat :: k < n ==> !w.raises(k)
  }

  lemma {:induction false} FirstValidNotBefore(w: World, from: nat, last: nat, k: nat)
    requires from <= k <= last && NoneValid(w, from, k)
    ensures k <= FirstValid(w, from, last)
    decreases last - from
  {
    if from < k {
      FirstValidNotBefore(w, from + 1, last, k);
    }
  }

  lemma {:induction false} FirstWorkingNotBefore(w: World, from: nat, last: nat, k: nat)
    requires from <= k <= last && NoneWorks(w, from, k)
    ensures k <= FirstWorking(w, from, last)
    decreases last - from
  {
    hide Works;
    if from < k {
      FirstWorkingNotBefore(w, from + 1, last, k);
    }
  }

  lemma {:induction false} FirstValidIs(w: World, from: nat, last: nat, k: nat)
    requires from <= k <= last && NoneValid(w, from, k) && (k < last ==> w.verdict(k).Valid())
    ensures FirstValid(w, from, last) == k
    decreases last - from
  {
    if from < k {
      FirstValidIs(w, from + 1, last, k);
    }
  }

  lemma {:induction false} FirstWorkingIs(w: World, from: nat, last: nat, k: nat)
    requires from <= k <= last && NoneWorks(w, from, k) && (k < last ==> Works(w, k))
    ensures FirstWorking(w, from, last) == k
    decreases last - from
  {
    hide Works;
    if from < k {
      FirstWorkingIs(w, from + 1, last, k);
    }
  }

  lemma {:induction false} NoneWorksNext(w: World, from: nat, n: nat)
    requires NoneWorks(w, from, n) && !Works(w, n)
    ensures NoneWorks(w, from, n + 1)
  {
  }

  /** The patch with which validation repair ends: the first valid one within the attempts, or the last one. */
  function ValidatedPatch(w: World, maxAttempts: int): nat {
    FirstValid(w, 0, Attempts(maxAttempts))
  }

  /** The patch with which application repair ends, after the patch numbered first failed to apply. */
  function RepairedPatch(w: World, first: nat, maxAttempts: int): nat {
    if Attempts(maxAttempts) == 0 then first else FirstWorking(w, first + 1, first + Attempts(maxAttempts))
  }

  /** The patch with which the run ends: the validated one, repaired if it is valid and fails to apply. */
  function LastPatch(w: World, maxAttempts: int): nat {
    var n := ValidatedPatch(w, maxAttempts);
    if w.verdict(n).Valid() && !w.apply(n).applied then RepairedPatch(w, n, maxAttempts) else n
  }

  /** Every valid patch among the first n + 1 was applied. */
  ghost predicate AllTried(w: World, log: seq<Event>, n: int) {
    forall k: nat :: k <= n && w.verdict(k).Valid() ==> Apply(k, w.apply(k)) in log
  }

  /** A run cut short by its n-th provider call: nothing was applied, and every valid patch so far was tried. */
  ghost predicate CutShort(w: World, log: seq<Event>, n: nat) {
    w.raises(n) && Generations(log) == n && Successes(log) == 0 && AllTried(w, log, n - 1)
  }

  /** The first loop: generate, then regenerate until a patch validates, unless the provider raises. */
  method RepairValidation(g: Ground, maxAttempts: int, ghost start: Applying.Files)
    returns (raised: bool, n: nat, log: seq<Event>, verdict: Verdict)
    ensures var w := WorldOf(g);
            && WellLogged(w, log) && FilesAfter(start, g, log) == start
            && (raised ==> CutShort(w, log, n) && n <= ValidatedPatch(w, maxAttempts))
            && (!raised ==>
              && verdict == w.verdict(n)
              && Generations(log) == n + 1 && Successes(log) == 0 && LastApplied(log) == None
              && log != [] && log[|log| - 1].Generate? && log[|log| - 1].n == n
              && n == ValidatedPatch(w, maxAttempts) && AllTried(w, log, n - 1) && NoRaise(w, n + 1)
              && (!w.verdict(n).Valid() ==> AllTried(w, log, n)))
  {
    hide WorldOf, Allowed, WellLogged, Generations, Successes, LastApplied, FilesAfter, AllTried, NoneValid, NoRaise, FirstValid, Patches.Acceptable, ErrorsAfter, AppliedNewest;
    ghost var w := WorldOf(g);
    Seen(g);
    EmptyLog(w);
    NoEffect(start, g);
    NothingYet(w);
    n, raised, verdict := 0, false, Verdict([], [], []);
    if g.raises(0) {
      return true, 0, [], verdict;
    }
    NoRaiseNext(w, 0);
    log := Generated(g, [], 0, First, start);
    verdict := Judge(g, 0);
    while n < maxAttempts && !verdict.Valid()
      invariant verdict == w.verdict(n) && FilesAfter(start, g, log) == start
      invariant WellLogged(w, log) && Generations(log) == n + 1 && Successes(log) == 0 && LastApplied(log) == None
      invariant log != [] && log[|log| - 1].Generate? && log[|log| - 1].n == n
      invariant n <= Attempts(maxAttempts)
      invariant NoneValid(w, 0, n) && NoRaise(w, n + 1)
      invariant AllTried(w, log, n - 1) && (!w.verdict(n).Valid() ==> AllTried(w, log, n))
    {
      NoneValidNext(w, n);
      if g.raises(n + 1) {
        FirstValidNotBefore(w, 0, Attempts(maxAttempts), n + 1);
        return true, n + 1, log, verdict;
      }
      NoRaiseNext(w, n + 1);
      var failures := verdict.errors + verdict.warnings;
      log := Generated(g, log, n + 1, Repair(g.patch(n).Output(), failures), start);
      n := n + 1;
      verdict := Judge(g, n);
    }
    FirstValidIs(w, 0, Attempts(maxAttempts), n);
  }

  /** What the world keeps of its ground as it is. */
  lemma {:induction false} Seen(g: Ground)
    ensures WorldOf(g).raises == g.raises && WorldOf(g).patch == g.patch
  {
  }

  lemma {:induction false} NoEffect(files: Applying.Files, g: Ground)
    ensures FilesAfter(files, g, []) == files
  {
  }

  /**
   `_run_infer_pipeline` from the evidence check on: what is raised, what is returned, the log of its calls, and the
   workspace it leaves.
  */
  method RunInferPipeline(g: Ground, workspace: Applying.Workspace, enoughEvidence: bool, maxAttempts: int)
    returns (r: Option<InferResult>, log: seq<Event>)
    modifies workspace
    ensures WellLogged(WorldOf(g), log) && workspace.files == FilesAfter(old(workspace.files), g, log)
    ensures r.None? <==> enoughEvidence && exists k: nat :: k <= LastPatch(WorldOf(g), maxAttempts) && g.raises(k)
    ensures r.None? ==> CutShort(WorldOf(g), log, Generations(log)) && Generations(log) <= LastPatch(WorldOf(g), maxAttempts)
    ensures r.Some? ==> (log == [] <==> !enoughEvidence)
    ensures r.Some? && enoughEvidence ==>
              && Generations(log) == LastPatch(WorldOf(g), maxAttempts) + 1
              && AllTried(WorldOf(g), log, LastPatch(WorldOf(g), maxAttempts))
    ensures Generations(log) <= 1 + 2 * (if maxAttempts > 0 then maxAttempts else 0)
    ensures r.Some? ==> r.value.errors == ErrorsAfter(WorldOf(g), log) && (r.value.errors == [] <==> AppliedNewest(WorldOf(g), log))
    ensures r.Some? && enoughEvidence ==> r.value.files == WorldOf(g).verdict(LastPatch(WorldOf(g), maxAttempts)).files
    ensures r.Some? ==> r.value.recommended == if r.value.errors == [] then "review_patch" else "retry_with_better_context"
  {
    hide WorldOf, Allowed, WellLogged, Generations, Successes, LastApplied, AllTried, FilesAfter, Honest, Patches.Acceptable;
    ghost var w, start := WorldOf(g), workspace.files;
    Seen(g);
    NoEffect(start, g);
    if !enoughEvidence {
      EmptyLog(w);
      return Some(InferResult(["insufficient repository investigation evidence"], [], "retry_with_better_context")), [];
    }
    var raised, n, verdict;
    raised, n, log, verdict := RepairValidation(g, maxAttempts, start);
    if raised {
      return None, log;
    }
    var errors := verdict.errors;
    if verdict.Valid() {
      var application;
      application, log := Tried(g, workspace, log, n, start);
      HonestErrors(application);
      errors := application.errors;
      if application.errors != [] && !application.applied {
        raised, n, log, errors, verdict := RepairApplication(g, workspace, log, n, application, verdict, maxAttempts, start);
        if raised {
          return None, log;
        }
      }
    }
    r := Some(InferResult(errors, verdict.files, if errors == [] then "review_patch" else "retry_with_better_context"));
  }

  /** The second loop: regenerate after a failed application. The application's errors stay the reported failures
      while regenerated patches do not validate. */
  method RepairApplication(g: Ground, workspace: Applying.Workspace, so: seq<Event>, first: nat, failed: Applied, judged: Verdict,
                           maxAttempts: int, ghost start: Applying.Files)
    returns (raised: bool, n: nat, log: seq<Event>, errors: seq<string>, verdict: Verdict)
    requires var w := WorldOf(g);
             && NoRaise(w, first + 1) && WellLogged(w, so) && Honest(failed) && !failed.applied && judged == w.verdict(first)
             && Generations(so) == first + 1 && Successes(so) == 0 && LastApplied(so) == Some(failed)
             && so != [] && so[|so| - 1] == Apply(first, failed) && AllTried(w, so, first)
             && workspace.files == FilesAfter(start, g, so)
    modifies workspace
    ensures WellLogged(WorldOf(g), log) && workspace.files == FilesAfter(start, g, log)
    ensures raised ==> CutShort(WorldOf(g), log, n) && n <= RepairedPatch(WorldOf(g), first, maxAttempts)
    ensures !raised ==>
              && verdict == WorldOf(g).verdict(n)
              && Generations(log) == n + 1
              && log != [] && errors == ErrorsAfter(WorldOf(g), log) && (errors == [] <==> AppliedNewest(WorldOf(g), log))
              && AllTried(WorldOf(g), log, n) && NoRaise(WorldOf(g), n + 1)
              && n == RepairedPatch(WorldOf(g), first, maxAttempts)
  {
    hide WorldOf, Allowed, NoRaise, WellLogged, Generations, Successes, LastApplied, NonEmpty, AllTried, NoneWorks, FirstWorking, Honest, ErrorsAfter, AppliedNewest, FilesAfter, Patches.Acceptable;
    ghost var w := WorldOf(g);
    Seen(g);
    FailedEnd(w, so, first, failed);
    NoneWorksYet(w, first + 1);
    HonestErrors(failed);
    raised, n, log, errors, verdict := false, first, so, failed.errors, judged;
    var application := failed;
    var attempt := 0;
    while attempt < maxAttempts
      invariant WellLogged(w, log) && workspace.files == FilesAfter(start, g, log)
      invariant Generations(log) == n + 1 && n == first + attempt && Successes(log) == 0
      invariant LastApplied(log) == Some(application) && !application.applied
      invariant log != [] && errors == ErrorsAfter(w, log) && errors != [] && !AppliedNewest(w, log)
      invariant 0 <= attempt <= Attempts(maxAttempts)
      invariant AllTried(w, log, n) && verdict == w.verdict(n) && Refused(w, log)
      invariant NoneWorks(w, first + 1, n + 1) && NoRaise(w, n + 1)
    {
      if g.raises(n + 1) {
        FirstWorkingNotBefore(w, first + 1, first + Attempts(maxAttempts), n + 1);
        return true, n + 1, log, errors, verdict;
      }
      NoRaiseNext(w, n + 1);
      var prompt := Repair(g.patch(n).Output(), NonEmpty(application.errors));
      log := Generated(g, log, n + 1, prompt, start);
      n := n + 1;
      attempt := attempt + 1;
      verdict := Judge(g, n);
      if !verdict.Valid() {
        errors := verdict.errors;
        NoneWorksNext(w, first + 1, n);
        continue;
      }
      application, log := Tried(g, workspace, log, n, start);
      HonestErrors(application);
      errors := application.errors;
      if application.applied {
        FirstWorkingIs(w, first + 1, first + Attempts(maxAttempts), n);
        return;
      }
      NoneWorksNext(w, first + 1, n);
    }
    if Attempts(maxAttempts) > 0 {
      NoneWorksBut(w, first + 1, n);
      FirstWorkingIs(w, first + 1, first + Attempts(maxAttempts), n);
    }
  }

  lemma {:induction false} FailedEnd(w: World, log: seq<Event>, n: nat, failed: Applied)
    requires log != [] && log[|log| - 1] == Apply(n, failed) && !failed.applied
    ensures ErrorsAfter(w, log) == failed.errors && !AppliedNewest(w, log)
  {
  }

  lemma {:induction false} NoRaiseNext(w: World, n: nat)
    requires NoRaise(w, n) && !w.raises(n)
    ensures NoRaise(w, n + 1)
  {
  }

  lemma {:induction false} NothingYet(w: World)
    ensures NoneValid(w, 0, 0) && NoRaise(w, 0) && AllTried(w, [], -1)
  {
  }

  lemma {:induction false} NoneValidNext(w: World, n: nat)
    requires NoneValid(w, 0, n) && !w.verdict(n).Valid()
    ensures NoneValid(w, 0, n + 1)
  {
  }

  lemma {:induction false} NoneWorksYet(w: World, from: nat)
    ensures NoneWorks(w, from, from)
  {
  }

  lemma {:induction false} NoneWorksBut(w: World, from: nat, n: nat)
    requires NoneWorks(w, from, n + 1)
    ensures NoneWorks(w, from, n)
  {
  }

  lemma {:induction false} HonestErrors(a: Applied)
    requires Honest(a)
    ensures a.applied <==> a.errors == []
  {
  }

  /** One provider call, which gives the n-th patch. */
  method Generated(g: Ground, log: seq<Event>, n: nat, prompt: Prompt, ghost start: Applying.Files) returns (r: seq<Event>)
    requires var w := WorldOf(g);
             && WellLogged(w, log) && Generations(log) == n && Successes(log) == 0 && !w.raises(n) && Refused(w, log)
             && prompt == if n == 0 then First else Repair(w.patch(n - 1).Output(), Reported(w, log, n - 1))
    ensures var w := WorldOf(g);
            && r == log + [Generate(n, prompt)] && WellLogged(w, r)
            && Generations(r) == n + 1 && Successes(r) == 0 && LastApplied(r) == LastApplied(log)
            && ErrorsAfter(w, r) == w.verdict(n).errors && !AppliedNewest(w, r)
            && (AllTried(w, log, n - 1) ==> AllTried(w, r, n - 1) && (!w.verdict(n).Valid() ==> AllTried(w, r, n)))
    ensures FilesAfter(start, g, r) == FilesAfter(start, g, log)
  {
    hide WorldOf, WellLogged, Generations, Successes, LastApplied, AllTried, FilesAfter;
    ghost var w := WorldOf(g);
    Extend(w, log, Generate(n, prompt));
    FilesAfterNext(start, g, log, Generate(n, prompt));
    r := log + [Generate(n, prompt)];
    TriedKept(w, log, Generate(n, prompt), n);
  }

  lemma {:induction false} TriedKept(w: World, log: seq<Event>, e: Event, n: nat)
    requires e == Apply(n, w.apply(n)) || e.Generate?
    ensures AllTried(w, log, n - 1) ==> AllTried(w, log + [e], n - 1)
    ensures AllTried(w, log, n - 1) && (w.verdict(n).Valid() ==> e.Apply?) ==> AllTried(w, log + [e], n)
  {
    assert e in log + [e];
  }

  /** One application of the newest patch, to the workspace. */
  method Tried(g: Ground, workspace: Applying.Workspace, log: seq<Event>, n: nat, ghost start: Applying.Files)
    returns (application: Applied, r: seq<Event>)
    requires WellLogged(WorldOf(g), log) && Successes(log) == 0 && workspace.files == FilesAfter(start, g, log)
    requires log != [] && log[|log| - 1].Generate? && log[|log| - 1].n == n && WorldOf(g).verdict(n).Valid()
    modifies workspace
    ensures application == WorldOf(g).apply(n) && Honest(application) && workspace.files == FilesAfter(start, g, r)
    ensures var w := WorldOf(g);
            && r == log + [Apply(n, w.apply(n))] && WellLogged(w, r)
            && Generations(r) == Generations(log) && Successes(r) == (if w.apply(n).applied then 1 else 0)
            && LastApplied(r) == Some(w.apply(n))
            && ErrorsAfter(w, r) == w.apply(n).errors && (AppliedNewest(w, r) <==> w.apply(n).applied)
            && (AllTried(w, log, n - 1) ==> AllTried(w, r, n))
  {
    hide WorldOf, WellLogged, Generations, Successes, LastApplied, AllTried, FilesAfter, Applying.Applied, Applying.PathsOf, Honest;
    ghost var w := WorldOf(g);
    application := TryPatch(workspace, g, n);
    Extend(w, log, Apply(n, application));
    FilesAfterNext(start, g, log, Apply(n, application));
    r := log + [Apply(n, application)];
    TriedKept(w, log, Apply(n, application), n);
  }

  lemma {:induction false} EmptyLog(w: World)
    ensures WellLogged(w, []) && Generations([]) == 0 && Successes([]) == 0 && LastApplied([]) == None
  {
  }

  // ----- consequences for every log -----

  lemma {:induction false} WellLoggedPrefix(w: World, log: seq<Event>, i: nat)
    requires WellLogged(w, log) && i <= |log|
    ensures WellLogged(w, log[..i])
  {
    hide Allowed;
    forall j | 0 <= j < i
      ensures Allowed(w, log[..i][..j], log[..i][j])
    {
      assert log[..i][..j] == log[..j];
      assert Allowed(w, log[..j], log[j]);
    }
  }

  /** No run applies an invalid patch, and it applies successfully at most once, as its last act. */
  lemma {:induction false} AppliesOnlyValidAndOnce(w: World, log: seq<Event>)
    requires WellLogged(w, log)
    ensures forall i :: 0 <= i < |log| && log[i].Apply? ==> w.verdict(log[i].n).Valid()
    ensures Successes(log) <= 1
    ensures Successes(log) == 1 ==> AppliedNewest(w, log)
    decreases |log|
  {
    forall i | 0 <= i < |log| && log[i].Apply?
      ensures w.verdict(log[i].n).Valid()
    {
      assert Allowed(w, log[..i], log[i]);
    }
    if log != [] {
      var n := |log| - 1;
      WellLoggedPrefix(w, log, n);
      AppliesOnlyValidAndOnce(w, log[..n]);
      assert Allowed(w, log[..n], log[n]);
    }
  }

  /** An application is of the newest patch. */
  lemma {:induction false} LastApplication(w: World, log: seq<Event>)
    requires WellLogged(w, log) && AppliedNewest(w, log)
    ensures log[|log| - 1].n == Generations(log) - 1 && log[|log| - 1].result == w.apply(log[|log| - 1].n)
  {
    var n := |log| - 1;
    assert Allowed(w, log[..n], log[n]);
    WellLoggedPrefix(w, log, n);
    NewestIsLast(w, log[..n]);
  }

  /**
   A repair prompt reports the failures of the very patch it quotes if and only if that patch was applied or nothing
   had been applied yet: after an application the failures are that application's, also when the quoted patch is a
   later one that did not validate.
  */
  lemma {:induction false} ReportsQuotedPatch(w: World, log: seq<Event>, i: nat)
    requires WellLogged(w, log) && 0 < i < |log| && log[i].Generate?
    ensures log[i].prompt.Repair? && log[i].prompt.previous == w.patch(log[i].n - 1).Output()
    ensures log[i].prompt.failures == Reported(w, log[..i], log[i].n - 1)
    ensures Newest(log[..i]) == Some(log[i].n - 1)
    ensures (match SourceOfFailures(log[..i]) case None => true case Some(m) => m == log[i].n - 1)
            <==> LastApplied(log[..i]).None? || log[i - 1].Apply?
  {
    hide Generations, Successes, LastApplied, SourceOfFailures, Newest, NonEmpty;
    assert Allowed(w, log[..i], log[i]);
    WellLoggedPrefix(w, log, i);
    GenerationsPositive(w, log[..i]);
    NewestIsLast(w, log[..i]);
    SourceIsApplied(w, log[..i]);
    assert log[..i][i - 1] == log[i - 1];
  }

  /** The patch the most recent application was about; before any application the newest patch's verdict is used. */
  function SourceOfFailures(log: seq<Event>): Option<nat> {
    if log == [] then None
    else if log[|log| - 1].Apply? then Some(log[|log| - 1].n)
    else SourceOfFailures(log[..|log| - 1])
  }

  function Newest(log: seq<Event>): Option<nat> {
    if log == [] then None
    else if log[|log| - 1].Generate? then Some(log[|log| - 1].n)
    else Newest(log[..|log| - 1])
  }

  lemma {:induction false} GenerationsPositive(w: World, log: seq<Event>)
    requires WellLogged(w, log) && log != []
    ensures Generations(log) >= 1
    decreases |log|
  {
    var n := |log| - 1;
    assert Allowed(w, log[..n], log[n]);
    if log[n].Apply? {
      WellLoggedPrefix(w, log, n);
      GenerationsPositive(w, log[..n]);
    }
  }

  lemma {:induction false} NewestIsLast(w: World, log: seq<Event>)
    requires WellLogged(w, log) && log != []
    ensures Newest(log) == Some(Generations(log) - 1)
    decreases |log|
  {
    var n := |log| - 1;
    assert Allowed(w, log[..n], log[n]);
    GenerationsPositive(w, log);
    if log[n].Apply? {
      WellLoggedPrefix(w, log, n);
      NewestIsLast(w, log[..n]);
    }
  }

  lemma {:induction false} SourceIsApplied(w: World, log: seq<Event>)
    requires WellLogged(w, log)
    ensures SourceOfFailures(log).Some? <==> LastApplied(log).Some?
    ensures log != [] && log[|log| - 1].Apply? ==> SourceOfFailures(log) == Some(Generations(log) - 1)
    ensures log != [] && log[|log| - 1].Generate? ==>
              SourceOfFailures(log).None? || SourceOfFailures(log).value < Generations(log) - 1
    decreases |log|
  {
    if log != [] {
      var n := |log| - 1;
      assert Allowed(w, log[..n], log[n]);
      WellLoggedPrefix(w, log, n);
      SourceIsApplied(w, log[..n]);
      if log[n].Apply? {
        NewestIsLast(w, log[..n]);
      }
    }
  }

  // ----- stale reports in a run -----

  lemma {:induction false} GenerationsGrow(log: seq<Event>, a: nat, b: nat)
    requires a < b <= |log| && log[a].Generate?
    ensures Generations(log[..b]) > Generations(log[..a])
    decreases b
  {
    assert log[..b][..b - 1] == log[..b - 1];
    if a < b - 1 {
      GenerationsGrow(log, a, b - 1);
    }
  }

  /** What the log says about one generation, and about one application. */
  lemma {:induction false} NumberIsCount(w: World, log: seq<Event>, i: nat)
    requires WellLogged(w, log) && i < |log| && log[i].Generate?
    ensures log[i].n == Generations(log[..i])
  {
    hide Generations;
    assert Allowed(w, log[..i], log[i]);
  }

  lemma {:induction false} AppliedNext(w: World, log: seq<Event>, j: nat)
    requires WellLogged(w, log) && j < |log| && log[j].Apply?
    ensures j > 0 && log[j - 1].Generate? && log[j - 1].n == log[j].n
  {
    assert Allowed(w, log[..j], log[j]);
    assert log[..j][j - 1] == log[j - 1];
  }

  /** A tried patch was tried directly after it was generated. */
  lemma {:induction false} TriedRightAfter(w: World, log: seq<Event>, j: nat, i: nat, k: nat)
    requires WellLogged(w, log) && j < |log| && i < |log|
    requires log[j].Apply? && log[j].n == k && log[i].Generate? && log[i].n == k
    ensures j == i + 1
  {
    hide WellLogged, Allowed, Generations, Successes;
    AppliedNext(w, log, j);
    NumberIsCount(w, log, i);
    NumberIsCount(w, log, j - 1);
    if j - 1 < i {
      GenerationsGrow(log, j - 1, i);
    } else if i < j - 1 {
      GenerationsGrow(log, i, j - 1);
    }
  }

  /**
   In the log of a run, which tries every valid patch: a repair prompt reports the failures of the patch it quotes if
   and only if nothing had been applied yet or that patch is valid.
  */
  lemma {:induction false} StaleReports(w: World, log: seq<Event>, i: nat)
    requires WellLogged(w, log) && AllTried(w, log, Generations(log) - 1)
    requires 0 < i < |log| && log[i].Generate?
    ensures log[i].n > 0
    ensures (match SourceOfFailures(log[..i]) case None => true case Some(m) => m == log[i].n - 1)
            <==> LastApplied(log[..i]).None? || w.verdict(log[i].n - 1).Valid()
  {
    hide WellLogged, Allowed, Generations, Successes, LastApplied, SourceOfFailures, Newest, NonEmpty;
    ReportsQuotedPatch(w, log, i);
    NumberIsCount(w, log, i);
    GenerationsGrow(log, i, |log|);
    assert log[..|log|] == log;
    NewestBefore(w, log, i);
    var k := log[i].n - 1;
    if log[i - 1].Generate? && w.verdict(k).Valid() {
      assert Apply(k, w.apply(k)) in log;
      var j :| 0 <= j < |log| && log[j] == Apply(k, w.apply(k));
      TriedRightAfter(w, log, j, i - 1, k);
    }
  }

  /** Just before a generation stands the newest patch: generated, or applied and so valid. */
  lemma {:induction false} NewestBefore(w: World, log: seq<Event>, i: nat)
    requires WellLogged(w, log) && 0 < i < |log| && log[i].Generate?
    ensures log[i].n > 0 && log[i - 1].n == log[i].n - 1
    ensures log[i - 1].Apply? ==> w.verdict(log[i - 1].n).Valid()
  {
    hide Generations, Successes, Reported, Refused;
    assert Allowed(w, log[..i - 1], log[i - 1]);
    NumberIsCount(w, log, i);
    var at := i - 1;
    if log[i - 1].Apply? {
      AppliedNext(w, log, i - 1);
      at := i - 2;
      CountNext(log, i - 2);
    }
    NumberIsCount(w, log, at);
    CountNext(log, i - 1);
    CountNext(log, at);
  }

  lemma {:induction false} CountNext(log: seq<Event>, i: nat)
    requires i < |log|
    ensures Generations(log[..i + 1]) == Generations(log[..i]) + if log[i].Generate? then 1 else 0
  {
    assert log[..i + 1][..i] == log[..i];
  }

  lemma {:induction false} SourceGives(w: World, log: seq<Event>)
    requires WellLogged(w, log) && SourceOfFailures(log).Some?
    ensures LastApplied(log) == Some(w.apply(SourceOfFailures(log).value)) && w.verdict(SourceOfFailures(log).value).Valid()
    decreases |log|
  {
    var n := |log| - 1;
    assert Allowed(w, log[..n], log[n]);
    if log[n].Generate? {
      WellLoggedPrefix(w, log, n);
      SourceGives(w, log[..n]);
    }
  }

  lemma {:induction false} GenerationFound(log: seq<Event>, k: nat) returns (i: nat)
    requires k < Generations(log)
    ensures i < |log| && log[i].Generate? && Generations(log[..i]) == k
    decreases |log|
  {
    var n := |log| - 1;
    if log[n].Generate? && Generations(log[..n]) == k {
      i := n;
    } else {
      i := GenerationFound(log[..n], k);
      assert log[..n][..i] == log[..i];
    }
  }

  lemma {:induction false} AppliedBefore(w: World, log: seq<Event>, i: nat, j: nat)
    requires WellLogged(w, log) && j < i <= |log| && log[j].Apply?
    ensures LastApplied(log[..i]).Some?
    decreases i
  {
    hide Allowed;
    assert log[..i][..i - 1] == log[..i - 1];
    if j < i - 1 {
      AppliedBefore(w, log, i - 1, j);
    }
  }

  /**
   The failure occurs: in every run with two attempts or more whose first patch is valid and does not apply and whose
   second is not valid, the third prompt quotes the second patch and reports what kept the first from applying.
  */
  lemma {:induction false} StaleReportOccurs(w: World, log: seq<Event>, maxAttempts: int) returns (i: nat)
    requires WellLogged(w, log) && Generations(log) == LastPatch(w, maxAttempts) + 1 && AllTried(w, log, LastPatch(w, maxAttempts))
    requires maxAttempts >= 2 && w.verdict(0).Valid() && !w.apply(0).applied && !w.verdict(1).Valid()
    ensures i < |log| && log[i] == Generate(2, Repair(w.patch(1).Output(), NonEmpty(w.apply(0).errors)))
  {
    hide WellLogged, Allowed, LastPatch, Generations, Successes, LastApplied, SourceOfFailures, Newest, NonEmpty;
    ThreeGenerations(w, maxAttempts);
    i := GenerationFound(log, 2);
    NumberIsCount(w, log, i);
    NoGenerations();
    assert log[..0] == [];
    ReportsQuotedPatch(w, log, i);
    StaleReports(w, log, i);
    WellLoggedPrefix(w, log, i);
    assert Apply(0, w.apply(0)) in log;
    var j :| 0 <= j < |log| && log[j] == Apply(0, w.apply(0));
    AppliedNext(w, log, j);
    NumberIsCount(w, log, j - 1);
    if i < j - 1 {
      GenerationsGrow(log, i, j - 1);
    }
    assert j < i;
    AppliedBefore(w, log, i, j);
    SourceIsApplied(w, log[..i]);
    SourceGives(w, log[..i]);
    EarlierSource(w, log[..i]);
  }

  lemma {:induction false} ThreeGenerations(w: World, maxAttempts: int)
    requires maxAttempts >= 2 && w.verdict(0).Valid() && !w.apply(0).applied && !w.verdict(1).Valid()
    ensures LastPatch(w, maxAttempts) >= 2
  {
    assert RepairedPatch(w, 0, maxAttempts) >= 2;
  }

  lemma {:induction false} NoGenerations()
    ensures Generations([]) == 0
  {
  }

  lemma {:induction false} EarlierSource(w: World, log: seq<Event>)
    requires WellLogged(w, log) && SourceOfFailures(log).Some?
    ensures SourceOfFailures(log).value < Generations(log)
  {
    SourceIsApplied(w, log);
  }
}
