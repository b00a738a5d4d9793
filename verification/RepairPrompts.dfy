/** What the repair prompts of a run tell the provider, read off its log. */
module RepairPrompts {
  import opened Results
  import opened PySeq
  import opened InferPipeline

  /** The elements of xs that are not empty stand in r, in order: at gives their places. */
  ghost predicate Sifted(xs: seq<string>, r: seq<string>, at: seq<nat>) {
    && |at| == |r|
    && (forall k :: 0 <= k < |r| ==> at[k] < |xs| && r[k] == xs[at[k]] && r[k] != "")
    && (forall k, l :: 0 <= k < l < |at| ==> at[k] < at[l])
    && (forall i: nat :: i < |xs| && xs[i] != "" ==> i in at)
  }

  lemma {:induction false} NonEmptyNext(xs: seq<string>, x: string)
    ensures NonEmpty(xs + [x]) == if x == "" then NonEmpty(xs) else NonEmpty(xs) + [x]
  {
    if xs == [] {
      assert [] + [x] == [x] && [x][1..] == [];
    } else {
      assert (xs + [x])[1..] == xs[1..] + [x];
      NonEmptyNext(xs[1..], x);
    }
  }

  lemma {:induction false} SiftedNext(xs: seq<string>, r: seq<string>, at: seq<nat>, x: string)
    requires Sifted(xs, r, at)
    ensures if x == "" then Sifted(xs + [x], r, at) else Sifted(xs + [x], r + [x], at + [|xs|])
  {
    var all := xs + [x];
    assert forall i :: 0 <= i < |xs| ==> all[i] == xs[i];
    if x != "" {
      var at' := at + [|xs|];
      assert at'[|at|] == |xs|;
      assert forall i :: i in at ==> i in at';
    }
  }

  lemma {:induction false} NonEmptySifts(xs: seq<string>) returns (at: seq<nat>)
    ensures Sifted(xs, NonEmpty(xs), at)
    decreases |xs|
  {
    hide Sifted, NonEmpty;
    if xs == [] {
      at := [];
      NothingSifted();
    } else {
      var n := |xs| - 1;
      assert xs == xs[..n] + [xs[n]];
      NonEmptyNext(xs[..n], xs[n]);
      var rest := NonEmptySifts(xs[..n]);
      SiftedNext(xs[..n], NonEmpty(xs[..n]), rest, xs[n]);
      at := if xs[n] == "" then rest else rest + [n];
    }
  }

  lemma {:induction false} NothingSifted()
    ensures NonEmpty([]) == [] && Sifted([], [], [])
  {
  }

  /** Nothing has been applied in this stretch of the log. */
  predicate NoneApplied(log: seq<Event>, from: nat, until: nat) {
    forall j :: from <= j < until && j < |log| ==> !log[j].Apply?
  }

  lemma {:induction false} NothingAppliedYet(log: seq<Event>, i: nat)
    requires i <= |log| && NoneApplied(log, 0, i)
    ensures LastApplied(log[..i]) == None
    decreases i
  {
    if i > 0 {
      assert log[..i][..i - 1] == log[..i - 1];
      NothingAppliedYet(log, i - 1);
    }
  }

  lemma {:induction false} AppliedLast(log: seq<Event>, j: nat, i: nat)
    requires j < i <= |log| && log[j].Apply? && NoneApplied(log, j + 1, i)
    ensures LastApplied(log[..i]) == Some(log[j].result)
    decreases i
  {
    assert log[..i][..i - 1] == log[..i - 1];
    if j < i - 1 {
      AppliedLast(log, j, i - 1);
    }
  }

  /** The first prompt of a run is the issue's; every later one quotes the patch before it, raw when there is raw text. */
  lemma {:induction false} PromptQuotes(w: World, log: seq<Event>, i: nat)
    requires WellLogged(w, log) && i < |log| && log[i].Generate?
    ensures if i == 0 then log[i] == Generate(0, First)
            else
              && log[i].n > 0 && log[i].prompt.Repair?
              && var before := w.patch(log[i].n - 1);
                 log[i].prompt.previous == if |before.raw| > 0 then before.raw else before.diff
  {
    hide Generations, Successes, LastApplied, NonEmpty;
    if i > 0 {
      ReportsQuotedPatch(w, log, i);
      NewestBefore(w, log, i);
    } else {
      NoGenerations();
      assert log[..0] == [];
      assert Allowed(w, log[..0], log[0]);
    }
  }

  /**
   While nothing has been applied, a repair prompt reports exactly what the validation of the patch it quotes said:
   its errors followed by its warnings, and there is an error among them.
  */
  lemma {:induction false} ReportsValidation(w: World, log: seq<Event>, i: nat)
    requires WellLogged(w, log) && 0 < i < |log| && log[i].Generate? && NoneApplied(log, 0, i)
    ensures log[i].n > 0 && log[i].prompt.Repair?
    ensures var verdict := w.verdict(log[i].n - 1);
            && log[i].prompt.failures == verdict.errors + verdict.warnings
            && verdict.errors != [] && log[i].prompt.failures != []
  {
    hide Generations, Successes, LastApplied, NonEmpty, SourceOfFailures, Newest;
    ReportsQuotedPatch(w, log, i);
    NewestBefore(w, log, i);
    NothingAppliedYet(log, i);
    assert log[i - 1].Generate?;
    assert Allowed(w, log[..i], log[i]);
    assert log[..i][i - 1] == log[i - 1];
  }

  /**
   Once something has been applied, every repair prompt reports the errors of the most recent application, without the
   empty ones and in their order; that application failed.
  */
  lemma {:induction false} ReportsApplication(w: World, log: seq<Event>, j: nat, i: nat) returns (at: seq<nat>)
    requires WellLogged(w, log) && HonestWorld(w)
    requires j < i < |log| && log[i].Generate? && log[j].Apply? && NoneApplied(log, j + 1, i)
    ensures log[i].prompt.Repair? && Sifted(log[j].result.errors, log[i].prompt.failures, at)
    ensures log[j].result == w.apply(log[j].n) && !log[j].result.applied && log[j].result.errors != []
  {
    hide Generations, Successes, LastApplied, SourceOfFailures, Newest, NonEmpty;
    ReportsQuotedPatch(w, log, i);
    AppliedLast(log, j, i);
    assert Allowed(w, log[..j], log[j]);
    FailedBefore(w, log, j, i);
    at := NonEmptySifts(log[j].result.errors);
  }

  lemma {:induction false} FailedBefore(w: World, log: seq<Event>, j: nat, i: nat)
    requires WellLogged(w, log) && j < i < |log| && log[i].Generate? && log[j].Apply?
    ensures !log[j].result.applied
  {
    hide Generations, LastApplied, NonEmpty, Reported;
    assert Allowed(w, log[..i], log[i]);
    if log[j].result.applied {
      SuccessCounted(log, j, i);
    }
  }

  lemma {:induction false} SuccessCounted(log: seq<Event>, j: nat, i: nat)
    requires j < i <= |log| && log[j].Apply? && log[j].result.applied
    ensures Successes(log[..i]) > 0
    decreases i
  {
    assert log[..i][..i - 1] == log[..i - 1];
    if j < i - 1 {
      SuccessCounted(log, j, i - 1);
    }
  }

  /**
   The errors a finished run returns: those of the application of its last patch when that patch is valid, and those of
   its validation when it is not; warnings are no errors.
  */
  lemma {:induction false} ReturnedErrors(w: World, log: seq<Event>)
    requires WellLogged(w, log) && log != [] && AllTried(w, log, Generations(log) - 1)
    ensures Generations(log) > 0
    ensures var last := Generations(log) - 1;
            ErrorsAfter(w, log) == if w.verdict(last).Valid() then w.apply(last).errors else w.verdict(last).errors
  {
    hide Generations, Successes, LastApplied, NonEmpty, Newest, Reported;
    GenerationsPositive(w, log);
    NewestIsLast(w, log);
    var i, last := |log| - 1, Generations(log) - 1;
    assert log[..i + 1] == log;
    CountNext(log, i);
    assert Allowed(w, log[..i], log[i]);
    if log[i].Generate? {
      if w.verdict(last).Valid() {
        assert Apply(last, w.apply(last)) in log;
        var j :| 0 <= j < |log| && log[j] == Apply(last, w.apply(last));
        TriedRightAfter(w, log, j, i, last);
      }
    } else {
      LastIsNewest(w, log);
    }
  }

  lemma {:induction false} LastIsNewest(w: World, log: seq<Event>)
    requires WellLogged(w, log) && log != [] && log[|log| - 1].Apply?
    ensures log[|log| - 1].n == Generations(log) - 1
  {
    hide Generations;
    SourceIsApplied(w, log);
  }

  // ----- how many attempts a run makes -----

  /**
   A run gives up exactly when its attempts are used up: when no patch ever validates its last one is the one numbered
   max_patch_repair_attempts, and so it is when the first validates and none ever works. It stops at the first patch that
   validates, if that is within the attempts.
  */
  lemma {:induction false} AttemptsUsed(w: World, maxAttempts: int, k: nat)
    ensures var used := if maxAttempts > 0 then maxAttempts else 0;
            && ((forall n: nat :: !w.verdict(n).Valid()) ==> LastPatch(w, maxAttempts) == used)
            && (w.verdict(0).Valid() && (forall n: nat :: !w.apply(n).applied) ==> LastPatch(w, maxAttempts) == used)
            && (k <= used && w.verdict(k).Valid() && (forall n: nat :: n < k ==> !w.verdict(n).Valid()) ==>
                  ValidatedPatch(w, maxAttempts) == k && (w.apply(k).applied ==> LastPatch(w, maxAttempts) == k))
  {
    hide FirstValid, FirstWorking, Verdict.Valid;
    var used := if maxAttempts > 0 then maxAttempts else 0;
    assert used == Attempts(maxAttempts);
    if forall n: nat :: !w.verdict(n).Valid() {
      FirstValidIs(w, 0, used, used);
    }
    if w.verdict(0).Valid() && forall n: nat :: !w.apply(n).applied {
      FirstValidIs(w, 0, used, 0);
      if used > 0 {
        FirstWorkingIs(w, 1, used, used);
      }
    }
    if k <= used && w.verdict(k).Valid() && forall n: nat :: n < k ==> !w.verdict(n).Valid() {
      FirstValidIs(w, 0, used, k);
    }
  }
}
