/** Applying a patch through git with backups and rollback, on a workspace of files. */
module Applying {
  import opened Text
  import opened PyPath
  import opened PySeq

  /** A path below the repository, as its parts; parts are never empty. */
  type FilePath = p: seq<string> | p != [] && "" !in p witness ["a"]

  type Files = map<FilePath, string>

  const SUFFIX := ".gew.bak"

  /** The paths that names in a diff stand for, however they are spelled; a name without parts stands for no file. */
  function PathsOf(names: seq<string>): seq<FilePath> {
    if names == [] then []
    else (if Parts(names[0]) == [] then [] else [Parts(names[0])]) + PathsOf(names[1..])
  }

  /** source.with_suffix(source.suffix + ".gew.bak") */
  function Backup(file: FilePath): FilePath {
    file[|file| - 1 := file[|file| - 1] + SUFFIX]
  }

  /** Path(str(backup).removesuffix(".gew.bak")); copying to a directory's own path would change nothing. */
  function Target(backup: FilePath): FilePath {
    var last := backup[|backup| - 1];
    if EndsWith(last, SUFFIX) && |last| > |SUFFIX| then backup[|backup| - 1 := last[..|last| - |SUFFIX|]] else backup
  }

  /** What git does on one call: its three checks, and, if run, the outcome of apply and its effect on the files. */
  datatype GitApply = GitApply(strict: bool, recount: bool, lenient: bool, checkError: string,
                               ok: bool, applyError: string, effect: Files -> Files)

  datatype Application = Application(applied: bool, dryRun: bool, files: seq<string>, errors: seq<string>)

  // ----- the steps on file contents -----

  function CopyAll(files: Files, modified: seq<FilePath>): (Files, seq<FilePath>)
    decreases |modified|
  {
    if modified == [] then (files, [])
    else if modified[0] !in files then CopyAll(files, modified[1..])
    else
      var (copied, rest) := CopyAll(files[Backup(modified[0]) := files[modified[0]]], modified[1..]);
      (copied, [Backup(modified[0])] + rest)
  }

  lemma {:induction false} FirstPath(names: seq<string>)
    requires names != []
    ensures var path := Parts(names[0]);
            PathsOf(names) == if path == [] then PathsOf(names[1..]) else [path] + PathsOf(names[1..])
    ensures Parts(names[0]) != [] ==> PathsOf(names) != [] && PathsOf(names)[1..] == PathsOf(names[1..])
  {
  }

  lemma {:induction false} NoPaths(names: seq<string>)
    requires names == []
    ensures PathsOf(names) == []
  {
  }

  function Restore(files: Files, backups: seq<FilePath>): Files
    decreases |backups|
  {
    if backups == [] then files
    else Restore(if backups[0] in files then files[Target(backups[0]) := files[backups[0]]] else files, backups[1..])
  }

  function Discard(files: Files, backups: seq<FilePath>): Files {
    files - (set b | b in backups)
  }

  function Applied(files: Files, modified: seq<FilePath>, git: GitApply, dryRun: bool, atomic: bool): Files {
    if dryRun || !(git.strict || git.recount || git.lenient) then files
    else
      var (copied, backups) := CopyAll(files, modified);
      var after := git.effect(copied);
      if git.ok then Discard(after, backups) else if atomic then Restore(after, backups) else after
  }

  /** What `apply` answers; it depends on git alone. */
  function ResultOf(names: seq<string>, git: GitApply, dryRun: bool): Application {
    if !git.strict && !git.recount && !git.lenient then Application(false, dryRun, names, [git.checkError])
    else if dryRun then Application(true, true, names, [])
    else if git.ok then Application(true, false, names, [])
    else Application(false, false, names, [git.applyError])
  }

  // ----- the applier -----

  class Workspace {
    var files: Files

    constructor (files: Files)
      ensures this.files == files
    {
      this.files := files;
    }

    /** The loop over the names in a diff; two spellings of one path are one file. */
    method MakeBackups(names: seq<string>) returns (backups: seq<FilePath>)
      modifies this
      ensures (files, backups) == CopyAll(old(files), PathsOf(names))
    {
      hide Backup, PathsOf, Parts;
      ghost var start := files;
      backups := [];
      assert names[0..] == names;
      assert backups + CopyAll(files, PathsOf(names)).1 == CopyAll(files, PathsOf(names)).1;
      for i := 0 to |names|
        invariant var (f, b) := CopyAll(files, PathsOf(names[i..])); CopyAll(start, PathsOf(names)) == (f, backups + b)
      {
        FirstPath(names[i..]);
        assert names[i..][1..] == names[i + 1..];
        var path := Parts(names[i]);
        if path != [] && path in files {
          var backup := Backup(path);
          ghost var rest := CopyAll(files[backup := files[path]], PathsOf(names[i + 1..])).1;
          assert backups + ([backup] + rest) == (backups + [backup]) + rest;
          files := files[backup := files[path]];
          backups := backups + [backup];
        }
      }
      NoPaths(names[|names|..]);
      assert backups + [] == backups;
    }

    method Rollback(backups: seq<FilePath>)
      modifies this
      ensures files == Restore(old(files), backups)
    {
      ghost var start := files;
      for i := 0 to |backups|
        invariant Restore(files, backups[i..]) == Restore(start, backups)
      {
        assert backups[i..][0] == backups[i] && backups[i..][1..] == backups[i + 1..];
        if backups[i] in files {
          files := files[Target(backups[i]) := files[backups[i]]];
        }
      }
    }

    /** `PatchApplier.apply`: applied exactly when there is no error; a dry run and a refused patch change nothing. */
    method ApplyPatch(names: seq<string>, git: GitApply, dryRun: bool, atomic: bool) returns (r: Application)
      modifies this
      ensures r.applied <==> r.errors == []
      ensures r.applied <==> (git.strict || git.recount || git.lenient) && (dryRun || git.ok)
      ensures r == ResultOf(names, git, dryRun)
      ensures files == Applied(old(files), PathsOf(names), git, dryRun, atomic)
      ensures dryRun || !(git.strict || git.recount || git.lenient) ==> files == old(files)
      ensures !atomic && !r.applied && !dryRun && (git.strict || git.recount || git.lenient) ==>
                files == git.effect(CopyAll(old(files), PathsOf(names)).0)
      ensures r.files == names && r.dryRun == dryRun
      ensures !r.applied ==> r.errors == [if git.strict || git.recount || git.lenient then git.applyError else git.checkError]
    {
      if !git.strict && !git.recount && !git.lenient {
        return Application(false, dryRun, names, [git.checkError]);
      }
      if dryRun {
        return Application(true, true, names, []);
      }
      var backups := MakeBackups(names);
      files := git.effect(files);
      if !git.ok {
        if atomic {
          Rollback(backups);
        }
        return Application(false, false, names, [git.applyError]);
      }
      files := Discard(files, backups);
      return Application(true, false, names, []);
    }
  }

  // ----- what rollback restores -----

  /** No modified file has the name of a modified file's backup. */
  predicate NoCollision(modified: seq<FilePath>) {
    forall f, g :: f in modified && g in modified ==> Backup(f) != g
  }

  lemma {:induction false} TargetOfBackup(f: FilePath)
    ensures Target(Backup(f)) == f
    ensures forall g :: Backup(f) == Backup(g) ==> f == g
  {
    StemOfBackup(f);
    forall g | Backup(f) == Backup(g)
      ensures f == g
    {
      StemOfBackup(g);
    }
  }

  lemma {:induction false} StemOfBackup(f: FilePath)
    ensures Target(Backup(f)) == f
  {
    var n := |f| - 1;
    var last := Backup(f)[n];
    assert last[|f[n]|..] == SUFFIX && last[..|f[n]|] == f[n];
    assert f[n] in f;
    assert Backup(f)[n := f[n]] == f;
  }

  /** A backup's name is longer than the file's. */
  lemma {:induction false} BackupLonger(f: FilePath)
    ensures NameLength(Backup(f)) == NameLength(f) + |SUFFIX| && Backup(f) != f && Backup(Backup(f)) != f
  {
  }

  function NameLength(f: FilePath): nat {
    |f[|f| - 1]|
  }

  /** Backups hold the contents the modified files had, and the modified files themselves are untouched. */
  lemma {:induction false} CopiesHold(files: Files, modified: seq<FilePath>, all: seq<FilePath>)
    requires NoCollision(all) && forall f :: f in modified ==> f in all
    ensures var (copied, backups) := CopyAll(files, modified);
            && (forall f :: f in all ==> (f in copied <==> f in files))
            && (forall f :: f in all && f in files ==> copied[f] == files[f])
            && (forall f :: f in modified && f in files ==>
                  Backup(f) in backups && Backup(f) in copied && copied[Backup(f)] == files[f])
            && (forall b :: b in backups ==> Target(b) in modified && Target(b) in files && b == Backup(Target(b)))
            && (forall f :: f in all && Backup(f) in files && f !in modified ==>
                  Backup(f) in copied && copied[Backup(f)] == files[Backup(f)])
    decreases |modified|
  {
    hide Backup, Target;
    if modified != [] {
      var m, rest := modified[0], modified[1..];
      TargetOfBackup(m);
      if m in files {
        var files' := files[Backup(m) := files[m]];
        CopiesHold(files', rest, all);
        var (copied, backups) := CopyAll(files', rest);
        assert CopyAll(files, modified).1 == [Backup(m)] + backups;
      } else {
        CopiesHold(files, rest, all);
      }
      assert modified == [m] + rest;
    }
  }

  /** Restoring copies every backup still present to its file, and touches no backup. */
  lemma {:induction false} RestoreHolds(files: Files, backups: seq<FilePath>, all: seq<FilePath>)
    requires NoCollision(all) && forall b :: b in backups ==> Target(b) in all && b == Backup(Target(b)) && b in files
    ensures var r := Restore(files, backups);
            && (forall b :: b in backups ==> Target(b) in r && r[Target(b)] == files[b])
            && (forall f :: f in all ==> (Backup(f) in r <==> Backup(f) in files))
            && (forall f :: f in all && Backup(f) in files ==> r[Backup(f)] == files[Backup(f)])
            && (forall f :: f in all && f in files && Backup(f) !in backups ==> f in r && r[f] == files[f])
    decreases |backups|
  {
    hide Backup, Target;
    if backups != [] {
      var b, rest := backups[0], backups[1..];
      var files' := files[Target(b) := files[b]];
      RestoreHolds(files', rest, all);
      assert backups == [b] + rest;
    }
  }

  /**
   Rollback: when apply fails after the checks passed and git left the backups alone, every modified file that existed
   has its old contents again, provided no modified file has the name of another one's backup.
  */
  lemma {:induction false} FailureRestores(files: Files, modified: seq<FilePath>, git: GitApply)
    requires (git.strict || git.recount || git.lenient) && !git.ok && NoCollision(modified)
    requires var (copied, backups) := CopyAll(files, modified);
             forall b :: b in backups ==> b in git.effect(copied) && b in copied && git.effect(copied)[b] == copied[b]
    ensures var after := Applied(files, modified, git, false, true);
            forall f :: f in modified && f in files ==> f in after && after[f] == files[f]
  {
    hide Backup, Target;
    CopiesHold(files, modified, modified);
    var (copied, backups) := CopyAll(files, modified);
    RestoreHolds(git.effect(copied), backups, modified);
    forall f | f in modified
      ensures Target(Backup(f)) == f
    {
      TargetOfBackup(f);
    }
  }

  // ----- when rollback does not restore -----

  /** What a failed apply leaves when git itself changed nothing. */
  function AfterFailure(files: Files, modified: seq<FilePath>): Files {
    var (copied, backups) := CopyAll(files, modified);
    Restore(copied, backups)
  }

  ghost predicate Restored(files: Files, after: Files, modified: seq<FilePath>) {
    forall f :: f in modified && f in files ==> f in after && after[f] == files[f]
  }

  /** f and its backup g are both modified, and g's backup is not. */
  ghost predicate Collides(modified: seq<FilePath>, f: FilePath, g: FilePath) {
    && f in modified && g in modified && g == Backup(f) && Backup(g) !in modified
    && f != g && f != Backup(g) && g != Backup(g)
  }

  /** Only f, g and g's backup exist, and f has its contents. */
  predicate Only(files: Files, f: FilePath, g: FilePath, x: string) {
    files.Keys <= {f, g, Backup(g)} && f in files && g in files && files[f] == x
  }

  /**
   Copying f overwrites g. If the last copy of g still has g's old contents y, every copy of g was made before the
   first copy of f.
  */
  lemma {:induction false} CopiesCollide(files: Files, modified: seq<FilePath>, f: FilePath, g: FilePath, x: string, y: string)
    requires Only(files, f, g, x) && x != y && files[g] in {x, y}
    requires g == Backup(f) && Backup(g) !in modified && f != g && f != Backup(g) && g != Backup(g)
    ensures var (copied, backups) := CopyAll(files, modified);
            && Only(copied, f, g, x) && copied[g] == (if f in modified then x else files[g])
            && (forall b :: b in backups ==> b in {g, Backup(g)})
            && (g in backups <==> f in modified) && (Backup(g) in backups <==> g in modified)
            && (g in modified ==> Backup(g) in copied && copied[Backup(g)] in {x, y})
            && (g in modified && files[g] == x ==> copied[Backup(g)] == x)
            && (g in modified && copied[Backup(g)] == y ==>
                  forall i, j :: 0 <= i < j < |backups| && backups[i] == g ==> backups[j] != Backup(g))
    decreases |modified|
  {
    hide Backup;
    if modified != [] {
      var m, rest := modified[0], modified[1..];
      assert modified == [m] + rest;
      if m == f {
        CopiesCollide(files[g := x], rest, f, g, x, y);
      } else if m == g {
        CopiesCollide(files[Backup(g) := files[g]], rest, f, g, x, y);
        if g !in rest {
          CopiesLeave(files[Backup(g) := files[g]], rest, f, g);
        }
      } else {
        CopiesCollide(files, rest, f, g, x, y);
      }
    }
  }

  /** Without a copy of g, its backup stays. */
  lemma {:induction false} CopiesLeave(files: Files, modified: seq<FilePath>, f: FilePath, g: FilePath)
    requires files.Keys <= {f, g, Backup(g)} && Backup(g) in files
    requires g !in modified && Backup(g) !in modified && g == Backup(f) && g != Backup(g)
    ensures var copied := CopyAll(files, modified).0; Backup(g) in copied && copied[Backup(g)] == files[Backup(g)]
    decreases |modified|
  {
    hide Backup;
    if modified != [] {
      var m, rest := modified[0], modified[1..];
      assert modified == [m] + rest;
      CopiesLeave(if m in files then files[Backup(m) := files[m]] else files, rest, f, g);
    }
  }

  /** When every copy holds x, restoring spreads nothing else. */
  lemma {:induction false} RestoreSpreads(files: Files, backups: seq<FilePath>, x: string)
    requires forall f :: f in files ==> files[f] == x
    ensures forall f :: f in Restore(files, backups) ==> Restore(files, backups)[f] == x
    ensures forall f :: f in files ==> f in Restore(files, backups)
    decreases |backups|
  {
    hide Target;
    if backups != [] {
      RestoreSpreads(if backups[0] in files then files[Target(backups[0]) := files[backups[0]]] else files, backups[1..], x);
    }
  }

  /** When g's backups come first and hold y, g gets y back and passes it on to f. */
  lemma {:induction false} RestorePassesOn(files: Files, backups: seq<FilePath>, f: FilePath, g: FilePath, y: string)
    requires g == Backup(f) && f != g && f != Backup(g) && g != Backup(g)
    requires f in files && g in files && Backup(g) in files && files[Backup(g)] == y
    requires forall b :: b in backups ==> b in {g, Backup(g)}
    requires forall i, j :: 0 <= i < j < |backups| && backups[i] == g ==> backups[j] != Backup(g)
    requires if g in backups then Backup(g) in backups || files[g] == y else files[f] == y
    requires g !in backups ==> Backup(g) !in backups
    ensures var after := Restore(files, backups); f in after && after[f] == y
    decreases |backups|
  {
    hide Backup, Target;
    TargetOfBackup(f);
    TargetOfBackup(g);
    if backups != [] {
      var b, rest := backups[0], backups[1..];
      assert backups == [b] + rest && b in backups;
      assert forall i :: 0 <= i < |rest| ==> rest[i] == backups[i + 1] && rest[i] in backups;
      if b == g {
        assert Backup(g) !in rest;
        assert files[g] == y;
      }
      RestorePassesOn(files[Target(b) := files[b]], rest, f, g, y);
    }
  }

  /** Two files of different contents, one named like the other's backup: a failed apply does not restore both. */
  lemma {:induction false} CollisionLosesContents(modified: seq<FilePath>, f: FilePath, g: FilePath, x: string, y: string)
    requires Collides(modified, f, g) && x != y
    ensures !Restored(map[f := x, g := y], AfterFailure(map[f := x, g := y], modified), modified)
  {
    hide Backup, Target;
    var files: Files := map[f := x, g := y];
    CopiesCollide(files, modified, f, g, x, y);
    var (copied, backups) := CopyAll(files, modified);
    if copied[Backup(g)] == x {
      RestoreSpreads(copied, backups, x);
    } else {
      RestorePassesOn(copied, backups, f, g, y);
    }
  }

  /** Among colliding paths there is a last pair. */
  lemma {:induction false} LastCollision(modified: seq<FilePath>, f: FilePath) returns (last: FilePath)
    requires f in modified && Backup(f) in modified
    ensures Collides(modified, last, Backup(last))
    decreases Longest(modified) - NameLength(f)
  {
    hide Longest, Backup;
    var g := Backup(f);
    BackupLonger(f);
    BackupLonger(g);
    LongestOf(modified, g);
    if Backup(g) in modified {
      last := LastCollision(modified, g);
    } else {
      last := f;
    }
  }

  function Longest(files: seq<FilePath>): nat {
    if files == [] then 0 else Max(NameLength(files[0]), Longest(files[1..]))
  }

  lemma {:induction false} LongestOf(files: seq<FilePath>, file: FilePath)
    requires file in files
    ensures NameLength(file) <= Longest(files)
  {
    if file != files[0] {
      assert files == [files[0]] + files[1..];
      LongestOf(files[1..], file);
    }
  }

  /**
   A failed apply that git left without effect restores every workspace if and only if no modified file has the name
   of a modified file's backup.
  */
  lemma {:induction false} RollbackRestoresIff(modified: seq<FilePath>)
    ensures (forall files: Files :: Restored(files, AfterFailure(files, modified), modified)) <==> NoCollision(modified)
  {
    hide Backup, Target;
    if NoCollision(modified) {
      forall files: Files
        ensures Restored(files, AfterFailure(files, modified), modified)
      {
        CopiesHold(files, modified, modified);
        var (copied, backups) := CopyAll(files, modified);
        RestoreHolds(copied, backups, modified);
        forall f | f in modified
          ensures Target(Backup(f)) == f
        {
          TargetOfBackup(f);
        }
      }
    } else {
      var f, g :| f in modified && g in modified && Backup(f) == g;
      var last := LastCollision(modified, f);
      CollisionLosesContents(modified, last, Backup(last), "x", "y");
    }
  }

  /** Two names collide however they are spelled: d//a.gew.bak is the backup of d/a. */
  lemma {:induction false} SpellingsCollide(d: string, a: string)
    requires d != "" && d != "." && '/' !in d && a != "" && a != "." && '/' !in a
    ensures var names := [d + "/" + a, d + "//" + (a + SUFFIX)];
            PathsOf(names) == [[d, a], Backup([d, a])] && !NoCollision(PathsOf(names))
  {
    hide Parts;
    var names := [d + "/" + a, d + "//" + (a + SUFFIX)];
    TwoParts(d, a, "/");
    TwoParts(d, a + SUFFIX, "//");
    FirstPath(names);
    FirstPath(names[1..]);
    assert names[1..][1..] == [];
    assert Backup([d, a]) == [d, a + SUFFIX];
    assert [d, a] in PathsOf(names) && Backup([d, a]) in PathsOf(names);
  }

  // ----- what a failed or successful apply leaves behind -----

  /** A failed apply, rollback included, leaves every backup it made: the workspace holds exactly the old files and those. */
  lemma {:induction false} BackupsLeft(files: Files, modified: seq<FilePath>)
    ensures AfterFailure(files, modified).Keys == files.Keys + set b | b in CopyAll(files, modified).1
    ensures NoCollision(modified) ==> AfterFailure(files, modified).Keys == files.Keys + set f | f in modified && f in files :: Backup(f)
  {
    hide Backup, Target;
    CopiedKeys(files, modified);
    var (copied, backups) := CopyAll(files, modified);
    RestoredKeys(copied, backups);
    if NoCollision(modified) {
      CopiesHold(files, modified, modified);
      assert (set b | b in backups) == set f | f in modified && f in files :: Backup(f);
    }
  }

  /** A modified file that exists, and so is copied. */
  predicate Copied(files: Files, modified: seq<FilePath>, f: FilePath) {
    f in modified && f in files
  }

  /**
   Contents after a failed apply that git left without effect: every backup holds its file's old contents, whatever was
   there before, and every other old file is unchanged.
  */
  lemma {:induction false} ContentsAfterFailure(files: Files, modified: seq<FilePath>)
    requires NoCollision(modified)
    ensures var after := AfterFailure(files, modified);
            && (forall f :: Copied(files, modified, f) ==> Backup(f) in after && after[Backup(f)] == files[f])
            && (forall p :: p in files && (forall f :: Copied(files, modified, f) ==> Backup(f) != p) ==> p in after && after[p] == files[p])
  {
    hide Backup, Target;
    CopiesHold(files, modified, modified);
    var (copied, backups) := CopyAll(files, modified);
    RestoreHolds(copied, backups, modified);
    RollbackRestoresIff(modified);
    assert Restored(files, AfterFailure(files, modified), modified);
    forall p | p in files && (forall f :: Copied(files, modified, f) ==> Backup(f) != p)
      ensures p in AfterFailure(files, modified) && AfterFailure(files, modified)[p] == files[p]
    {
      if p !in modified {
        forall b | b in backups
          ensures b != p
        {
          assert Copied(files, modified, Target(b));
        }
        CopyKeeps(files, modified, p);
        RestoreKeeps(copied, backups, p);
      }
    }
    forall f | Copied(files, modified, f)
      ensures Backup(f) in AfterFailure(files, modified) && AfterFailure(files, modified)[Backup(f)] == files[f]
    {
      RestoreKeeps(copied, backups, Backup(f));
    }
  }

  /** Copying writes backups and nothing else; restoring writes their files and nothing else. */
  lemma {:induction false} CopyKeeps(files: Files, modified: seq<FilePath>, p: FilePath)
    requires p in files && p !in CopyAll(files, modified).1
    ensures p in CopyAll(files, modified).0 && CopyAll(files, modified).0[p] == files[p]
    decreases |modified|
  {
    hide Backup;
    if modified != [] {
      var m := modified[0];
      CopyKeeps(if m in files then files[Backup(m) := files[m]] else files, modified[1..], p);
    }
  }

  lemma {:induction false} RestoreKeeps(files: Files, backups: seq<FilePath>, p: FilePath)
    requires p in files && forall b :: b in backups ==> Target(b) != p
    ensures p in Restore(files, backups) && Restore(files, backups)[p] == files[p]
    decreases |backups|
  {
    hide Target;
    if backups != [] {
      var b, rest := backups[0], backups[1..];
      assert backups == [b] + rest && b in backups;
      RestoreKeeps(if b in files then files[Target(b) := files[b]] else files, rest, p);
    }
  }

  lemma {:induction false} CopiedKeys(files: Files, modified: seq<FilePath>)
    ensures var (copied, backups) := CopyAll(files, modified);
            && copied.Keys == files.Keys + (set b | b in backups)
            && (forall b :: b in backups ==> Target(b) in copied)
    decreases |modified|
  {
    hide Backup, Target;
    if modified == [] {
    } else if modified[0] !in files {
      CopiedKeys(files, modified[1..]);
    } else {
      var b := Backup(modified[0]);
      TargetOfBackup(modified[0]);
      CopiedKeys(files[b := files[modified[0]]], modified[1..]);
    }
  }

  lemma {:induction false} RestoredKeys(files: Files, backups: seq<FilePath>)
    requires forall b :: b in backups ==> Target(b) in files
    ensures Restore(files, backups).Keys == files.Keys
    decreases |backups|
  {
    hide Target;
    if backups != [] {
      var b, rest := backups[0], backups[1..];
      assert backups == [b] + rest && b in backups;
      var next := if b in files then files[Target(b) := files[b]] else files;
      assert next.Keys == files.Keys;
      RestoredKeys(next, rest);
    }
  }

  /** A successful apply leaves no file with the name of a modified file's backup, even one that was there before. */
  lemma {:induction false} BackupNamesDeleted(files: Files, modified: seq<FilePath>, git: GitApply, f: FilePath)
    requires (git.strict || git.recount || git.lenient) && git.ok && f in modified && f in files
    ensures Backup(f) !in Applied(files, modified, git, false, true)
  {
    hide Backup;
    BackupMade(files, modified, f);
  }

  /**
   What a successful apply leaves: exactly what git made of the workspace it was given, every path with the contents git
   left there, but for the backups just made, which are gone. git was given the old workspace, every file in it with its
   contents but those with a backup's name; and without a collision the backups are those of the modified files that exist.
  */
  lemma {:induction false} SuccessKeepsEffect(files: Files, modified: seq<FilePath>, git: GitApply, atomic: bool)
    requires (git.strict || git.recount || git.lenient) && git.ok
    ensures var (copied, backups) := CopyAll(files, modified);
            var made, after := git.effect(copied), Applied(files, modified, git, false, atomic);
            && (forall p: FilePath :: p in after <==> p in made && p !in backups)
            && (forall p: FilePath :: p in after ==> after[p] == made[p])
            && (forall p: FilePath :: p in files && p !in backups ==> p in copied && copied[p] == files[p])
            && (forall p: FilePath :: p in copied ==> p in files || p in backups)
    ensures NoCollision(modified) ==>
              forall p: FilePath :: p in CopyAll(files, modified).1 <==> exists f :: Copied(files, modified, f) && p == Backup(f)
  {
    hide Backup, Target;
    var (copied, backups) := CopyAll(files, modified);
    CopiedKeys(files, modified);
    forall p: FilePath | p in files && p !in backups
      ensures p in copied && copied[p] == files[p]
    {
      CopyKeeps(files, modified, p);
    }
    if NoCollision(modified) {
      CopiesHold(files, modified, modified);
      assert forall p :: p in backups ==> Copied(files, modified, Target(p)) && p == Backup(Target(p));
    }
  }

  lemma {:induction false} BackupMade(files: Files, modified: seq<FilePath>, f: FilePath)
    requires f in modified && f in files
    ensures Backup(f) in CopyAll(files, modified).1
    decreases |modified|
  {
    hide Backup;
    var m, rest := modified[0], modified[1..];
    assert modified == [m] + rest;
    if m != f {
      BackupMade(if m in files then files[Backup(m) := files[m]] else files, rest, f);
    }
  }
}
