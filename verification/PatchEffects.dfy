/** What a run of the infer pipeline does to the workspace, and what the diffs it applies have in common. */
module PatchEffects {
  import opened Results
  import opened Text
  import opened Applying
  import opened InferPipeline

  // ----- failed runs -----

  /** git that fails to apply a patch changes nothing. */
  ghost predicate Inert(g: Ground) {
    forall n: nat, files: Files :: !g.git(n).ok ==> g.git(n).effect(files) == files
  }

  /** No patch the log applies modifies a path and that path's backup. */
  ghost predicate NoCollisions(g: Ground, log: seq<Event>) {
    forall i :: 0 <= i < |log| && log[i].Apply? ==> NoCollision(PathsOf(NamesOf(g, log[i].n)))
  }

  predicate BackupNamed(p: FilePath) {
    EndsWith(p[|p| - 1], SUFFIX)
  }

  lemma {:induction false} BackupIsNamed(p: FilePath)
    ensures BackupNamed(Backup(p))
  {
    var last := Backup(p)[|p| - 1];
    assert last[|last| - |SUFFIX|..] == SUFFIX;
  }

  /** Backups aside, every file has the contents it had, and there is no new one. */
  ghost predicate Kept(before: Files, after: Files) {
    && (forall p :: p in before && !BackupNamed(p) ==> p in after && after[p] == before[p])
    && (forall p :: p in after ==> p in before || BackupNamed(p))
  }

  /** One failed application. */
  lemma {:induction false} FailedApplyKeeps(files: Files, g: Ground, n: nat)
    requires Inert(g) && NoCollision(PathsOf(NamesOf(g, n))) && !InferPipeline.ResultOf(g, n).applied
    ensures Kept(files, Applying.Applied(files, PathsOf(NamesOf(g, n)), g.git(n), g.dryRun, true))
  {
    hide PathsOf, NamesOf, Backup, BackupNamed, NoCollision, CopyAll, Restore;
    var modified := PathsOf(NamesOf(g, n));
    var git := g.git(n);
    var after := Applying.Applied(files, modified, git, g.dryRun, true);
    if git.strict || git.recount || git.lenient {
      assert !g.dryRun && !git.ok;
      var (copied, _) := CopyAll(files, modified);
      assert g.git(n).effect(copied) == copied;
      assert after == AfterFailure(files, modified);
      ContentsAfterFailure(files, modified);
      BackupsLeft(files, modified);
      forall f: FilePath
        ensures BackupNamed(Backup(f))
      {
        BackupIsNamed(f);
      }
    }
  }

  lemma {:induction false} KeptTwice(a: Files, b: Files, c: Files)
    requires Kept(a, b) && Kept(b, c)
    ensures Kept(a, c)
  {
    hide BackupNamed;
  }

  /** A log without a success keeps the workspace. */
  lemma {:induction false} FailuresKeep(files: Files, g: Ground, log: seq<Event>)
    requires WellLogged(WorldOf(g), log) && Successes(log) == 0 && Inert(g) && NoCollisions(g, log)
    ensures Kept(files, FilesAfter(files, g, log))
    decreases |log|
  {
    hide Kept, PathsOf, NamesOf, Applying.Applied, InferPipeline.ResultOf, Inert;
    if log == [] {
      KeptItself(files);
    } else {
      var n := |log| - 1;
      assert Allowed(WorldOf(g), log[..n], log[n]);
      WellLoggedPrefix(WorldOf(g), log, n);
      FailuresKeep(files, g, log[..n]);
      if log[n].Apply? {
        FailedApplyKeeps(FilesAfter(files, g, log[..n]), g, log[n].n);
        KeptTwice(files, FilesAfter(files, g, log[..n]), FilesAfter(files, g, log));
      }
    }
  }

  lemma {:induction false} KeptItself(files: Files)
    ensures Kept(files, files)
  {
  }

  /** A dry run changes nothing. */
  lemma {:induction false} DryRunKeeps(files: Files, g: Ground, log: seq<Event>)
    requires g.dryRun
    ensures FilesAfter(files, g, log) == files
    decreases |log|
  {
    if log != [] {
      DryRunKeeps(files, g, log[..|log| - 1]);
    }
  }

  // ----- what a successful patch leaves -----

  /** git's apply writes these contents, into old files or new ones, and leaves all other files alone. */
  ghost predicate Writes(git: GitApply, contents: Files) {
    && (forall files: Files :: git.effect(files) == files + contents)
    && (forall p :: p in contents ==> !BackupNamed(p))
  }

  /** Backups aside, the files are the old ones with these contents written. */
  ghost predicate Patched(before: Files, after: Files, contents: Files) {
    && (forall p :: p in contents ==> p in after && after[p] == contents[p])
    && (forall p :: p in before && p !in contents && !BackupNamed(p) ==> p in after && after[p] == before[p])
    && (forall p :: p in after ==> p in before || p in contents || BackupNamed(p))
  }

  lemma {:induction false} BackupsAreNamed(files: Files, modified: seq<FilePath>)
    ensures forall b :: b in CopyAll(files, modified).1 ==> BackupNamed(b)
    decreases |modified|
  {
    hide Backup, BackupNamed;
    if modified != [] {
      var m := modified[0];
      BackupIsNamed(m);
      BackupsAreNamed(if m in files then files[Backup(m) := files[m]] else files, modified[1..]);
    }
  }

  /** One successful application. */
  lemma {:induction false} SuccessfulApplyWrites(files: Files, g: Ground, n: nat, contents: Files)
    requires !g.dryRun && InferPipeline.ResultOf(g, n).applied && Writes(g.git(n), contents)
    ensures Patched(files, Applying.Applied(files, PathsOf(NamesOf(g, n)), g.git(n), g.dryRun, true), contents)
  {
    hide PathsOf, NamesOf, BackupNamed, CopyAll, Applying.Applied, NoCollision;
    var modified := PathsOf(NamesOf(g, n));
    SuccessKeepsEffect(files, modified, g.git(n), true);
    BackupsAreNamed(files, modified);
    var (copied, backups) := CopyAll(files, modified);
    assert g.git(n).effect(copied) == copied + contents;
  }

  lemma {:induction false} KeptThenPatched(a: Files, b: Files, c: Files, contents: Files)
    requires Kept(a, b) && Patched(b, c, contents)
    ensures Patched(a, c, contents)
  {
    hide BackupNamed;
  }

  // ----- every run -----

  /** The n-th patch meets every demand of the validator. */
  ghost predicate Accepted(g: Ground, n: nat) {
    Patches.Acceptable(g.patch(n).diff, g.limits, g.surroundings(n))
  }

  lemma {:induction false} ValidIsAccepted(g: Ground, n: nat)
    ensures WorldOf(g).verdict(n).Valid() <==> Accepted(g, n)
  {
    hide Patches.Acceptable, Patches.ValidationOf;
    Patches.ValidExactly(g.patch(n).diff, g.limits, g.surroundings(n));
  }

  lemma {:induction false} WithoutSuccess(w: World, log: seq<Event>)
    requires WellLogged(w, log)
    ensures Successes(log) == if AppliedNewest(w, log) then 1 else 0
    ensures log != [] ==> Successes(log[..|log| - 1]) == 0
  {
    hide Allowed;
    if log != [] {
      AppliesOnlyValidAndOnce(w, log);
      WellLoggedPrefix(w, log, |log| - 1);
      AppliesOnlyValidAndOnce(w, log[..|log| - 1]);
      NothingAfterSuccess(w, log);
    }
  }

  lemma {:induction false} NothingAfterSuccess(w: World, log: seq<Event>)
    requires WellLogged(w, log) && log != []
    ensures Successes(log[..|log| - 1]) == 0
  {
    var n := |log| - 1;
    assert Allowed(w, log[..n], log[n]);
    if log[n].Apply? {
      assert log[..n][n - 1] == log[n - 1];
      assert Allowed(w, log[..n - 1], log[n - 1]);
      assert log[..n][..n - 1] == log[..n - 1];
    }
  }

  lemma {:induction false} WrittenAtEnd(start: Files, before: Files, after: Files, g: Ground, n: nat)
    requires !g.dryRun && InferPipeline.ResultOf(g, n).applied && Kept(start, before)
    requires after == Applying.Applied(before, PathsOf(NamesOf(g, n)), g.git(n), g.dryRun, true)
    ensures forall contents :: Writes(g.git(n), contents) ==> Patched(start, after, contents)
  {
    hide Applying.Applied, Kept, Patched, Writes, PathsOf, NamesOf, InferPipeline.ResultOf;
    forall contents | Writes(g.git(n), contents)
      ensures Patched(start, after, contents)
    {
      SuccessfulApplyWrites(before, g, n, contents);
      KeptThenPatched(start, before, after, contents);
    }
  }

  /**
   The whole effect of a run. Every diff it applies, successfully or not, meets every limit. Without errors its last act
   was the application of its last patch, and the workspace is what git made of that patch, its backups removed, in a
   workspace kept until then: when git writes some contents for that patch, the workspace ends with exactly those
   contents written into the old files. With errors, or cut short, it keeps the workspace but for backups; a dry run
   changes nothing at all.
  */
  method RunBacked(g: Ground, workspace: Workspace, enoughEvidence: bool, maxAttempts: int)
    returns (r: Option<InferResult>, log: seq<Event>)
    modifies workspace
    ensures forall i :: 0 <= i < |log| && log[i].Apply? ==> Accepted(g, log[i].n)
    ensures r.Some? && r.value.errors == [] ==>
              var last := LastPatch(WorldOf(g), maxAttempts);
              && log != [] && log[|log| - 1] == Apply(last, InferPipeline.ResultOf(g, last)) && Accepted(g, last)
              && workspace.files == Applying.Applied(FilesAfter(old(workspace.files), g, log[..|log| - 1]),
                                                     PathsOf(NamesOf(g, last)), g.git(last), g.dryRun, true)
              && (Inert(g) && NoCollisions(g, log) ==> Kept(old(workspace.files), FilesAfter(old(workspace.files), g, log[..|log| - 1])))
    ensures r.Some? && r.value.errors == [] && !g.dryRun && Inert(g) && NoCollisions(g, log) ==>
              forall contents :: Writes(g.git(LastPatch(WorldOf(g), maxAttempts)), contents) ==> Patched(old(workspace.files), workspace.files, contents)
    ensures (r.None? || r.value.errors != []) && Inert(g) && NoCollisions(g, log) ==> Kept(old(workspace.files), workspace.files)
    ensures g.dryRun ==> workspace.files == old(workspace.files)
  {
    hide Accepted, Generations, Successes, LastPatch, Writes, Patched, WellLogged, Kept, Inert, PathsOf, NamesOf, Applying.Applied, AllTried, Patches.ValidationOf, InferPipeline.ResultOf, ErrorsAfter;
    ghost var start, w := workspace.files, WorldOf(g);
    r, log := InferPipeline.RunInferPipeline(g, workspace, enoughEvidence, maxAttempts);
    AppliesOnlyValidAndOnce(w, log);
    forall i | 0 <= i < |log| && log[i].Apply?
      ensures Accepted(g, log[i].n)
    {
      ValidIsAccepted(g, log[i].n);
    }
    WithoutSuccess(w, log);
    if g.dryRun {
      DryRunKeeps(start, g, log);
    }
    if r.Some? && r.value.errors == [] {
      LastApplication(w, log);
      ValidIsAccepted(g, LastPatch(w, maxAttempts));
      if Inert(g) && NoCollisions(g, log) {
        WellLoggedPrefix(w, log, |log| - 1);
        FailuresKeep(start, g, log[..|log| - 1]);
        if !g.dryRun {
          WrittenAtEnd(start, FilesAfter(start, g, log[..|log| - 1]), workspace.files, g, LastPatch(w, maxAttempts));
        }
      }
    } else {
      assert Successes(log) == 0 by {
        if r.None? {
          assert CutShort(w, log, Generations(log));
        }
      }
      if Inert(g) && NoCollisions(g, log) {
        FailuresKeep(start, g, log);
      }
    }
  }
}
