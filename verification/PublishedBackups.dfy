/** Two concrete runs: a stale repair prompt, and backups of a failed patch that are published as a success. */
module PublishedBackups {
  import opened Results
  import opened Text
  import opened PyDict
  import opened PySeq
  import opened PyPath
  import opened DiffNames
  import opened InferPipeline
  import Controller
  import Git

  // ----- a diff the validator accepts -----

  const DIFF := "--- a/f\n+++ b/f\n@@"
  const LIMITS := Patches.Limits(1, 0, 0)
  const ANYTHING := Patches.Surroundings(_ => false, _ => true, None)

  lemma {:induction false} DiffLines()
    ensures SplitOn(DIFF, '\n') == ["--- a/f"] + (["+++ b/f"] + ["@@"])
    ensures SplitLines(DIFF) == ["--- a/f"] + (["+++ b/f"] + ["@@"])
  {
    hide SplitOn, SplitLines;
    var a, b, c := "--- a/f", "+++ b/f", "@@";
    assert DIFF == a + ['\n'] + (b + ['\n'] + c);
    CutAt(a, b + ['\n'] + c, '\n');
    CutAt(b, c, '\n');
    Uncut(c, '\n');
    LineFeedBreaks();
    SplitAtBreak(a, '\n', b + ['\n'] + c);
    SplitAtBreak(b, '\n', c);
    SplitUnbroken(c);
  }

  lemma {:induction false} DiffNamesFile()
    ensures NamedFiles(SplitOn(DIFF, '\n')) == ["f"] && ModifiedFiles(SplitLines(DIFF)) == ["f"]
  {
    hide SplitOn, SplitLines, NamedFiles, ModifiedFiles;
    DiffLines();
    Unnamed("--- a/f", ["+++ b/f"] + ["@@"]);
    OneName("+++ b/f", "f");
    NamedConcat(["+++ b/f"], ["@@"]);
    Unnamed("@@", []);
    assert ["@@"] + [] == ["@@"];
    NoName();
    LastUnnamed();
  }

  lemma {:induction false} LastUnnamed()
    ensures ModifiedFiles(["+++ b/f"] + ["@@"]) == ModifiedFiles(["+++ b/f"])
  {
    var b, c := "+++ b/f", "@@";
    assert ([b] + [c])[1..] == [c] && [b][1..] == [] && [c][1..] == [];
  }

  lemma {:induction false} DiffCounts()
    ensures Patches.CountLines(SplitLines(DIFF), "+") == 0 && Patches.CountLines(SplitLines(DIFF), "-") == 0
  {
    hide SplitLines, Patches.CountLines, StartsWith;
    DiffLines();
    Marks();
    NoneCounted("--- a/f", "+++ b/f", "@@", "+");
    NoneCounted("--- a/f", "+++ b/f", "@@", "-");
  }

  lemma {:induction false} NoneCounted(a: string, b: string, c: string, mark: string)
    requires !StartsWith(a, mark) || StartsWith(a, mark + mark + mark)
    requires !StartsWith(b, mark) || StartsWith(b, mark + mark + mark)
    requires !StartsWith(c, mark) || StartsWith(c, mark + mark + mark)
    ensures Patches.CountLines([a] + ([b] + [c]), mark) == 0
  {
    hide Patches.CountLines, StartsWith;
    assert [c] == [c] + [];
    Uncounted(a, [b] + [c], mark);
    Uncounted(b, [c], mark);
    Uncounted(c, [], mark);
  }

  lemma {:induction false} Uncounted(line: string, rest: seq<string>, mark: string)
    requires !StartsWith(line, mark) || StartsWith(line, mark + mark + mark)
    ensures Patches.CountLines([line] + rest, mark) == Patches.CountLines(rest, mark)
    ensures Patches.CountLines([], mark) == 0
  {
    assert ([line] + rest)[1..] == rest;
  }

  lemma {:induction false} Marks()
    ensures !StartsWith("@@", "+") && !StartsWith("@@", "-")
    ensures StartsWith("+++ b/f", "+" + "+" + "+") && !StartsWith("+++ b/f", "-")
    ensures StartsWith("--- a/f", "-" + "-" + "-") && !StartsWith("--- a/f", "+")
  {
    assert "@@"[..1][0] == '@' && "+++ b/f"[..1][0] == '+' && "--- a/f"[..1][0] == '-';
    assert "+++ b/f"[..3] == "+" + "+" + "+" && "--- a/f"[..3] == "-" + "-" + "-";
  }

  lemma {:induction false} DiffFormat()
    ensures Strip(DIFF) != "" && Contains(DIFF, "--- ") && Contains(DIFF, "+++ ") && Contains(DIFF, "@@")
  {
    assert DIFF[0..] == DIFF && DIFF[..4] == "--- ";
    assert StartsWith(DIFF[0..], "--- ");
    assert DIFF[8..][..4] == "+++ ";
    assert StartsWith(DIFF[8..], "+++ ");
    assert DIFF[16..][..2] == "@@";
    assert StartsWith(DIFF[16..], "@@");
    assert LStrip(DIFF) == DIFF && RStrip(DIFF) == DIFF;
  }

  /** Anything with the three marks, no counted line and one name without slashes meets these limits. */
  lemma {:induction false} OneFileAcceptable(diff: string, name: string)
    requires Strip(diff) != "" && Contains(diff, "--- ") && Contains(diff, "+++ ") && Contains(diff, "@@")
    requires NamedFiles(SplitOn(diff, '\n')) == [name] && Parts(name) == [name] && name !in Patches.GENERATED_PARTS
    requires Patches.CountLines(SplitLines(diff), "+") == 0 && Patches.CountLines(SplitLines(diff), "-") == 0
    ensures Patches.Acceptable(diff, LIMITS, ANYTHING)
  {
    hide Strip, Contains, SplitOn, SplitLines, NamedFiles, Patches.CountLines, Parts;
    DedupeOfDistinct([name]);
  }

  lemma {:induction false} DiffAcceptable()
    ensures Patches.Acceptable(DIFF, LIMITS, ANYTHING)
  {
    hide Strip, Contains, SplitOn, SplitLines, NamedFiles, Patches.CountLines, Parts, Patches.Acceptable;
    DiffFormat();
    DiffNamesFile();
    DiffCounts();
    OnePart("f");
    OneFileAcceptable(DIFF, "f");
  }

  lemma {:induction false} OnePart(name: string)
    requires name != "" && name != "." && '/' !in name
    ensures Parts(name) == [name]
  {
    Uncut(name, '/');
    assert Kept([name][1..]) == [];
  }

  /** The n-th patch is acceptable, but for the second, which is empty; git refuses the first. */
  const FIRST_FAILS := Applying.GitApply(true, false, false, "", false, "first does not apply", files => files)
  const LATER_APPLIES := Applying.GitApply(true, false, false, "", true, "", files => files)
  const STALE_GROUND := Ground(_ => false, n => if n == 1 then Patch("", "second") else Patch(DIFF, ""), LIMITS, _ => ANYTHING,
                               n => if n == 0 then FIRST_FAILS else LATER_APPLIES, false)

  lemma {:induction false} StaleWorld()
    ensures var w := WorldOf(STALE_GROUND);
            w.verdict(0).Valid() && w.apply(0) == Applied(false, ["first does not apply"]) && !w.verdict(1).Valid()
  {
    hide Patches.Acceptable, Patches.ValidationOf, NamesOf;
    DiffAcceptable();
    Patches.ValidExactly(DIFF, LIMITS, ANYTHING);
    Patches.ValidExactly("", LIMITS, ANYTHING);
    EmptyRefused();
  }

  lemma {:induction false} EmptyRefused()
    ensures !Patches.Acceptable("", LIMITS, ANYTHING)
  {
    hide Contains, SplitOn, SplitLines, NamedFiles, Patches.CountLines, Parts;
  }

  /** A run whose third prompt quotes the second patch and reports what kept the first from applying. */
  method RunWithStaleReport(workspace: Applying.Workspace) returns (r: Option<InferResult>, log: seq<Event>)
    modifies workspace
    ensures r.Some?
    ensures exists i :: 0 <= i < |log| && log[i] == Generate(2, Repair("second", ["first does not apply"]))
  {
    hide WellLogged, Generations, AllTried, LastPatch, FilesAfter, WorldOf;
    r, log := RunInferPipeline(STALE_GROUND, workspace, true, 2);
    StaleWorld();
    Seen(STALE_GROUND);
    ghost var i := StaleReportOccurs(WorldOf(STALE_GROUND), log, 2);
    assert NonEmpty(["first does not apply"]) == ["first does not apply"] by {
      assert ["first does not apply"][1..] == [];
    }
  }

  // ----- backups published as a success -----

  /** The status report names exactly the paths whose contents differ from before. */
  ghost predicate Reports(dirty: seq<string>, before: Applying.Files, after: Applying.Files) {
    forall p: Applying.FilePath ::
      (exists i :: 0 <= i < |dirty| && Parts(dirty[i]) == p)
      <==> (p in before) != (p in after) || (p in before && p in after && before[p] != after[p])
  }

  /**
   A clean checkout in which the run left these changes, every switch on and nothing failing: whatever the changes are,
   they are committed, pushed and opened as a pull request.
  */
  lemma {:induction false} ChangesPublished(dirty: seq<string>, files: seq<string>, maxRetries: nat)
    requires dirty != [] && files != []
    ensures var left := Controller.UNCHANGED.(dirty := dirty);
            var around := Controller.Surroundings(3, Controller.CLEAN, _ => Controller.Produced(files, true, left), None);
            var (after, status, git) := Controller.Ending(Git.Session(Controller.CLEAN, 0), around, maxRetries, Controller.EVERYTHING_ON, _ => false);
            && status == "pull_request_created" && git.Some? && git.value.commit.Some? && git.value.commit.value.Commit?
            && git.value.commit.value.files == dirty && git.value.pushed
            && after.repo.pullRequests == [Git.PullRequest("issue", "main")]
  {
    hide Git.Complete;
    var left := Controller.UNCHANGED.(dirty := dirty);
    var never: nat -> bool := _ => false;
    var attempts: nat -> Controller.Attempt := _ => Controller.Produced(files, true, left);
    assert Controller.Runs(attempts, 0, maxRetries) == 1;
    var prepared := Git.Do(Git.Session(Controller.CLEAN, 0), Git.CheckoutReset("issue", "main"), never).0;
    HandedOff(prepared.(repo := left), dirty, never);
  }

  lemma {:induction false} HandedOff(s: Git.Session, dirty: seq<string>, fault: nat -> bool)
    requires s.repo == Controller.UNCHANGED.(dirty := dirty) && dirty != [] && forall n: nat :: !fault(n)
    ensures var (after, r) := Git.Complete(s, Controller.EVERYTHING_ON, fault);
            && r.Ok? && !r.value.dryRun && r.value.commit.Some? && r.value.commit.value.Commit? && r.value.commit.value.files == dirty
            && r.value.pushed && after.repo.pullRequests == [Git.PullRequest("issue", "main")]
  {
    hide Git.DoAll, Git.CommitCommands, Git.PushCommands;
    var s1 := Git.Do(s, Git.ShowCurrent, fault).0;
    var s2 := Git.Do(s1, Git.Status, fault).0;
    Git.CommitsChanges(s2, "fix", fault);
    CommitSucceeds(s2, dirty, fault);
    var s3 := Git.DoAll(s2, Git.CommitCommands(dirty, "fix"), fault).0;
    PushSucceeds(s3, fault);
    PublishSucceeds(s3, Git.HeadCommit(s3.repo), fault);
    assert Git.OnBranch(s1, "issue", Controller.EVERYTHING_ON, fault) == Git.Publish(s3, "issue", Git.HeadCommit(s3.repo), Controller.EVERYTHING_ON, fault);
    assert Git.Complete(s, Controller.EVERYTHING_ON, fault) == Git.OnBranch(s1, "issue", Controller.EVERYTHING_ON, fault);
    Git.CompleteResult(s, Controller.EVERYTHING_ON, fault);
    Git.CompleteTells(s, Controller.EVERYTHING_ON, fault);
  }

  lemma {:induction false} PublishSucceeds(s: Git.Session, commit: Option<Git.Commit>, fault: nat -> bool)
    requires s.repo.hasRemote && "issue" in s.repo.branches && forall n: nat :: !fault(n)
    ensures Git.Publish(s, "issue", commit, Controller.EVERYTHING_ON, fault).1.Ok?
  {
    hide Git.DoAll, Git.PushCommands, Strip;
    PushSucceeds(s, fault);
    Words();
    var on := Controller.EVERYTHING_ON;
    var pushed := if commit.Some? then Git.DoAll(s, Git.PushCommands("issue", on.dryRun), fault).0 else s;
    var open := Git.OpenPullRequest(Git.PullRequest("issue", "main"), false);
    assert Git.Effect(pushed.repo, open).Some?;
    assert Git.Do(pushed, open, fault).1;
  }

  lemma {:induction false} Words()
    ensures Strip("issue") != "" && Strip("main") != ""
  {
    assert LStrip("issue") == "issue" && RStrip("issue") == "issue";
    assert LStrip("main") == "main" && RStrip("main") == "main";
  }

  lemma {:induction false} CommitSucceeds(s: Git.Session, dirty: seq<string>, fault: nat -> bool)
    requires s.repo == Controller.UNCHANGED.(dirty := dirty) && dirty != [] && forall n: nat :: !fault(n)
    ensures var (after, ok) := Git.DoAll(s, Git.CommitCommands(dirty, "fix"), fault);
            ok && after.repo.hasRemote && after.repo.head == "issue" && "issue" in after.repo.branches
  {
    hide Git.DoAll;
    Git.CommitSteps(s, dirty, "fix", fault);
    var staged := Git.Do(s, Git.Add(dirty), fault).0.repo.staged;
    Git.AllStaged(dirty, staged);
  }

  lemma {:induction false} PushSucceeds(s: Git.Session, fault: nat -> bool)
    requires s.repo.hasRemote && "issue" in s.repo.branches && forall n: nat :: !fault(n)
    ensures var (after, ok) := Git.DoAll(s, Git.PushCommands("issue", false), fault); ok
  {
    hide Git.DoAll;
    Git.OneStep(s, Git.Push("issue"), fault);
  }

  const ALWAYS_FAILS := Ground(_ => false, _ => Patch(DIFF, ""), LIMITS, _ => ANYTHING, _ => FIRST_FAILS, false)
  const FILE: Applying.FilePath := ["f"]
  const BACKUP: Applying.FilePath := ["f.gew.bak"]

  lemma {:induction false} FailedPatch()
    ensures var w := WorldOf(ALWAYS_FAILS);
            && w.verdict(0).Valid() && w.verdict(0).files == ["f"] && w.apply(0) == Applied(false, ["first does not apply"])
            && LastPatch(w, 0) == 0
    ensures Applying.PathsOf(NamesOf(ALWAYS_FAILS, 0)) == [FILE]
  {
    hide Patches.Acceptable, Patches.Collected, Patches.FormatErrors, Patches.LimitErrors, NamedFiles, ModifiedFiles, SplitOn, SplitLines, Parts, Dedupe;
    DiffAcceptable();
    Patches.ValidExactly(DIFF, LIMITS, ANYTHING);
    DiffNamesFile();
    DedupeOfDistinct(["f"]);
    OnePart("f");
    Applying.FirstPath(["f"]);
    Applying.NoPaths(["f"][1..]);
  }

  /** Copying f to its backup, and copying it back after git failed. */
  lemma {:induction false} BackupStays(text: string)
    ensures Applying.Applied(map[FILE := text], [FILE], FIRST_FAILS, false, true) == map[FILE := text, BACKUP := text]
  {
    Applying.TargetOfBackup(FILE);
    assert "f" + Applying.SUFFIX == "f.gew.bak";
    assert Applying.Backup(FILE) == BACKUP;
    var files: Applying.Files := map[FILE := text];
    var copied := files[BACKUP := text];
    assert [FILE][1..] == [] && Applying.CopyAll(copied, []) == (copied, []);
    assert [BACKUP] + [] == [BACKUP];
    assert Applying.CopyAll(files, [FILE]) == (copied, [BACKUP]);
    assert [BACKUP][1..] == [];
    assert Applying.Restore(copied, [BACKUP]) == copied[FILE := text];
  }

  lemma {:induction false} BackupReported(text: string)
    ensures Reports(["f.gew.bak"], map[FILE := text], map[FILE := text, BACKUP := text])
  {
    hide Parts;
    OnePart("f.gew.bak");
    assert ["f.gew.bak"][0] == "f.gew.bak";
  }

  /**
   The whole way: in a repository with the file f, a pipeline run whose one patch is valid and does not apply ends with
   errors, names f and leaves f's backup as the only change; handed to the controller with every switch on, that backup
   is committed, pushed and opened as a pull request, and the status is "pull_request_created".
  */
  method PublishBackup(workspace: Applying.Workspace, text: string, maxRetries: nat)
    returns (r: Option<InferResult>, log: seq<Event>)
    requires workspace.files == map[FILE := text]
    modifies workspace
    ensures r.Some? && r.value.errors == ["first does not apply"] && r.value.files == ["f"]
    ensures workspace.files == map[FILE := text, BACKUP := text]
    ensures Reports(["f.gew.bak"], old(workspace.files), workspace.files)
    ensures var left := Controller.UNCHANGED.(dirty := ["f.gew.bak"]);
            var around := Controller.Surroundings(3, Controller.CLEAN, _ => Controller.Produced(r.value.files, true, left), None);
            var (after, status, git) := Controller.Ending(Git.Session(Controller.CLEAN, 0), around, maxRetries, Controller.EVERYTHING_ON, _ => false);
            && status == "pull_request_created" && git.Some? && git.value.commit.Some? && git.value.commit.value.Commit?
            && git.value.commit.value.files == ["f.gew.bak"] && git.value.pushed
            && after.repo.pullRequests == [Git.PullRequest("issue", "main")]
  {
    hide WorldOf, NamesOf, LastPatch, Reports, Controller.Ending, Applying.Applied, Applying.PathsOf, Git.Complete, Allowed;
    ghost var w := WorldOf(ALWAYS_FAILS);
    FailedPatch();
    Seen(ALWAYS_FAILS);
    BackupStays(text);
    BackupReported(text);
    r, log := RunInferPipeline(ALWAYS_FAILS, workspace, true, 0);
    OneFailure(log);
    ChangesPublished(["f.gew.bak"], ["f"], maxRetries);
  }

  /** The only log of such a run: one generation and its failed application. */
  lemma {:induction false} OneFailure(log: seq<Event>)
    requires WellLogged(WorldOf(ALWAYS_FAILS), log) && Generations(log) == 1 && AllTried(WorldOf(ALWAYS_FAILS), log, 0)
    ensures log == [Generate(0, First)] + [Apply(0, Applied(false, ["first does not apply"]))]
    ensures ErrorsAfter(WorldOf(ALWAYS_FAILS), log) == ["first does not apply"]
    ensures forall files :: FilesAfter(files, ALWAYS_FAILS, log)
                            == Applying.Applied(files, [FILE], FIRST_FAILS, false, true)
  {
    hide WorldOf, NamesOf, Applying.Applied, Applying.PathsOf, LastPatch, Generations;
    var w := WorldOf(ALWAYS_FAILS);
    FailedPatch();
    NoGenerations();
    assert log[..0] == [];
    assert Apply(0, w.apply(0)) in log;
    var j :| 0 <= j < |log| && log[j] == Apply(0, w.apply(0));
    AppliedNext(w, log, j);
    NumberIsCount(w, log, j - 1);
    assert Allowed(w, log[..0], log[0]);
    if j > 1 {
      GenerationsGrow(log, 0, j - 1);
    }
    GenerationsGrow(log, 0, 2);
    assert log[..|log|] == log;
    if |log| > 2 && log[2].Generate? {
      GenerationsGrow(log, 2, |log|);
    }
    forall files
      ensures FilesAfter(files, ALWAYS_FAILS, log) == Applying.Applied(files, [FILE], FIRST_FAILS, false, true)
    {
      NoEffect(files, ALWAYS_FAILS);
      FilesAfterNext(files, ALWAYS_FAILS, [], log[0]);
      assert [] + [log[0]] == [log[0]];
      FilesAfterNext(files, ALWAYS_FAILS, [log[0]], log[1]);
    }
  }
}
