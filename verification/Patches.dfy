/** Accepting or rejecting a unified diff before it is applied. */
module Patches {
  import opened Results
  import opened Text
  import opened PyDict
  import opened PyPath
  import opened DiffNames

  // ----- validation -----

  datatype Limits = Limits(maxFiles: int, maxLines: int, minEvidence: int)

  /** What the repository and the investigation say about a file name, and how much evidence there is. */
  datatype Surroundings = Surroundings(
    escapes: string -> bool,
    exists_: string -> bool,
    context: Option<Investigation>)

  datatype Investigation = Investigation(category: string, evidence: nat, supported: string -> bool)

  datatype PatchValidation = PatchValidation(
    valid: bool,
    errors: seq<string>,
    warnings: seq<string>,
    files: seq<string>,
    rejected: seq<string>)

  const GENERATED_PARTS: set<string> := {"node_modules", "vendor", "dist", "build", ".git"}
  const DOCUMENT_NAMES: set<string> := {"readme", "readme.md", "contributing.md"}

  predicate Generated(file: string) {
    exists part :: part in Parts(file) && part in GENERATED_PARTS
  }

  predicate UnrelatedDocument(file: string, context: Investigation) {
    context.category != "Documentation" && (EndsWith(Lower(file), ".md") || Lower(Name(file)) in DOCUMENT_NAMES)
  }

  function CountLines(lines: seq<string>, mark: string): nat {
    if lines == [] then 0
    else (if StartsWith(lines[0], mark) && !StartsWith(lines[0], mark + mark + mark) then 1 else 0) + CountLines(lines[1..], mark)
  }

  predicate FileAcceptable(file: string, s: Surroundings) {
    && !s.escapes(file)
    && !Generated(file)
    && (s.context.Some? ==> !UnrelatedDocument(file, s.context.value))
  }

  /** A file the validator warns about: missing from the repository, or outside what was investigated. */
  predicate Doubtful(file: string, s: Surroundings) {
    !s.exists_(file)
    || (s.context.Some? && !UnrelatedDocument(file, s.context.value) && !s.context.value.supported(file))
  }

  /** Everything the validator demands of a diff. */
  predicate Acceptable(diff: string, limits: Limits, s: Surroundings) {
    var files := NamedFiles(SplitOn(diff, '\n'));
    && Strip(diff) != ""
    && Contains(diff, "--- ") && Contains(diff, "+++ ") && Contains(diff, "@@")
    && |Dedupe(files)| <= limits.maxFiles
    && (forall f :: f in files ==> FileAcceptable(f, s))
    && (s.context.Some? ==> s.context.value.evidence >= limits.minEvidence)
    && CountLines(SplitLines(diff), "+") + CountLines(SplitLines(diff), "-") <= limits.maxLines
  }

  /** How often x occurs; a file is repeated when it occurs more than once. */
  function Occurrences(xs: seq<string>, x: string): nat {
    if xs == [] then 0 else (if xs[0] == x then 1 else 0) + Occurrences(xs[1..], x)
  }

  lemma {:induction false} OccursOnce(xs: seq<string>, i: nat)
    requires i < |xs| && forall a, b :: 0 <= a < b < |xs| ==> xs[a] != xs[b]
    ensures Occurrences(xs, xs[i]) == 1
  {
    if i == 0 {
      NeverOccurs(xs[1..], xs[0]);
    } else {
      OccursOnce(xs[1..], i - 1);
    }
  }

  lemma {:induction false} NeverOccurs(xs: seq<string>, x: string)
    requires x !in xs
    ensures Occurrences(xs, x) == 0
  {
    if xs != [] {
      NeverOccurs(xs[1..], x);
    }
  }

  /** The names are deduplicated before repeated names are looked for, so none is ever found. */
  lemma {:induction false} NoRepeatedSections(diff: string)
    ensures var files := Dedupe(NamedFiles(SplitOn(diff, '\n')));
            forall i :: 0 <= i < |files| ==> Occurrences(files, files[i]) <= 1
  {
    var files := Dedupe(NamedFiles(SplitOn(diff, '\n')));
    forall i | 0 <= i < |files|
      ensures Occurrences(files, files[i]) <= 1
    {
      OccursOnce(files, i);
    }
  }

  // ----- what the limits count and what is generated -----

  /** A line of the diff that the limit on changed lines counts: marked once or twice, but not three times. */
  predicate Changed(line: string, mark: char) {
    |line| > 0 && line[0] == mark && !(|line| >= 3 && line[1] == mark && line[2] == mark)
  }

  /** The places of the counted lines. */
  ghost function ChangedAt(lines: seq<string>, mark: char): set<nat> {
    set i: nat | i < |lines| && Changed(lines[i], mark)
  }

  lemma {:induction false} CountLinesNext(lines: seq<string>, line: string, mark: string)
    ensures CountLines(lines + [line], mark) == CountLines(lines, mark) + CountLines([line], mark)
  {
    if lines == [] {
      assert lines + [line] == [line] && CountLines([], mark) == 0;
    } else {
      assert (lines + [line])[1..] == lines[1..] + [line];
      CountLinesNext(lines[1..], line, mark);
    }
  }

  lemma {:induction false} CountOne(line: string, mark: char)
    ensures CountLines([line], [mark]) == if Changed(line, mark) then 1 else 0
  {
    var three := [mark] + [mark] + [mark];
    assert three == [mark, mark, mark];
    assert [line][1..] == [] && CountLines([], [mark]) == 0;
    if |line| >= 3 {
      assert line[..3] == [line[0], line[1], line[2]];
    }
    if |line| >= 1 {
      assert line[..1] == [line[0]];
    }
  }

  /** The limit counts exactly the lines that start with the mark and not with three of it. */
  lemma {:induction false} CountLinesExact(lines: seq<string>, mark: char)
    ensures CountLines(lines, [mark]) == |ChangedAt(lines, mark)|
    decreases |lines|
  {
    hide CountLines, Changed;
    if lines == [] {
      NothingCounted([mark]);
      assert ChangedAt([], mark) == {};
    } else {
      var n := |lines| - 1;
      CountLinesExact(lines[..n], mark);
      CountLinesNext(lines[..n], lines[n], [mark]);
      CountOne(lines[n], mark);
      assert lines == lines[..n] + [lines[n]];
      assert ChangedAt(lines, mark) == ChangedAt(lines[..n], mark) + if Changed(lines[n], mark) then {n} else {};
    }
  }

  lemma {:induction false} NothingCounted(mark: string)
    ensures CountLines([], mark) == 0
  {
  }

  /**
   Each of these alone makes a diff invalid: more changed lines or more files than allowed, a file in a generated directory
   at any depth, one outside the repository, a document the issue is not about, too little evidence, a missing mark.
  */
  lemma {:induction false} RefusedDiffs(diff: string, limits: Limits, s: Surroundings, before: string, dir: string, after: string)
    requires dir in {"node_modules", "vendor", "dist", "build", ".git"}
    ensures var r := ValidationOf(diff, limits, s);
            && (|ChangedAt(SplitLines(diff), '+')| + |ChangedAt(SplitLines(diff), '-')| > limits.maxLines ==> !r.valid)
            && (before + "/" + dir + "/" + after in r.files ==> !r.valid)
            && (dir + "/" + after in r.files ==> !r.valid)
            && ((exists f :: f in r.files && s.escapes(f)) ==> !r.valid)
            && (s.context.Some? && (exists f :: f in r.files && UnrelatedDocument(f, s.context.value)) ==> !r.valid)
            && (s.context.Some? && s.context.value.evidence < limits.minEvidence ==> !r.valid)
            && (|r.files| > limits.maxFiles ==> !r.valid)
            && (!Contains(diff, "--- ") || !Contains(diff, "+++ ") || !Contains(diff, "@@") || Strip(diff) == "" ==> !r.valid)
  {
    hide ValidationOf, CountLines, SplitLines, Strip, Contains, SplitOn, NamedFiles, ChangedAt, Generated, UnrelatedDocument;
    ValidExactly(diff, limits, s);
    CountLinesExact(SplitLines(diff), '+');
    CountLinesExact(SplitLines(diff), '-');
    ValidatedFiles(diff, limits, s);
    InGenerated(before, dir, after);
  }

  /**
   Warnings never decide: a diff is warned about exactly when a file it names is not in the repository, or is outside what
   was investigated and no document that is refused anyway.
  */
  lemma {:induction false} WarnedDiffs(diff: string, limits: Limits, s: Surroundings)
    ensures var r := ValidationOf(diff, limits, s);
            r.warnings == [] <==> forall f :: f in r.files ==>
              s.exists_(f) && (s.context.Some? ==> s.context.value.supported(f) || UnrelatedDocument(f, s.context.value))
  {
    hide ValidationOf, UnrelatedDocument;
    ValidExactly(diff, limits, s);
  }

  /** The files of a diff are what follows "+++ b/" on its lines, each once. */
  lemma {:induction false} FilesNamed(diff: string, limits: Limits, s: Surroundings, file: string)
    ensures var r := ValidationOf(diff, limits, s);
            && (file in r.files <==> file != "" && "+++ b/" + file in SplitOn(diff, '\n'))
            && (forall i, j :: 0 <= i < j < |r.files| ==> r.files[i] != r.files[j])
  {
    hide ValidationOf, SplitOn, NamedFiles;
    ValidatedFiles(diff, limits, s);
    NamedExactly(SplitOn(diff, '\n'), file);
  }

  lemma {:induction false} ValidatedFiles(diff: string, limits: Limits, s: Surroundings)
    ensures ValidationOf(diff, limits, s).files == Dedupe(NamedFiles(SplitOn(diff, '\n')))
  {
  }

  /** A file anywhere below one of the generated directories is generated. */
  lemma {:induction false} InGenerated(before: string, dir: string, after: string)
    requires dir in {"node_modules", "vendor", "dist", "build", ".git"}
    ensures Generated(before + "/" + dir + "/" + after) && Generated(dir + "/" + after)
  {
    hide Parts;
    assert dir in GENERATED_PARTS;
    PartBetween(before, dir, after);
  }

  /** A markdown file, in any capitals. */
  predicate Markdown(file: string) {
    |file| >= 3 && file[|file| - 3] == '.' && file[|file| - 2] in ['m', 'M'] && file[|file| - 1] in ['d', 'D']
  }

  /** A readme without an extension, in any capitals. */
  predicate Readme(word: string) {
    |word| == 6 && forall i :: 0 <= i < 6 ==> LowerChar(word[i]) == "readme"[i]
  }

  lemma {:induction false} MarkdownEnds(file: string)
    ensures EndsWith(Lower(file), ".md") <==> Markdown(file)
  {
    var lowered := Lower(file);
    if |file| >= 3 {
      assert lowered[|file| - 3..] == [lowered[|file| - 3], lowered[|file| - 2], lowered[|file| - 1]];
      assert ".md" == ['.', 'm', 'd'];
    }
  }

  lemma {:induction false} ReadmeNamed(directory: string, word: string)
    requires Readme(word)
    ensures Lower(Name(directory + "/" + word)) == "readme" && Lower(Name(word)) == "readme"
  {
    hide SplitOn;
    assert forall i :: 0 <= i < 6 ==> LowerChar(word[i]) != '/' && LowerChar(word[i]) != '.';
    assert Lower(word) == "readme";
    Uncut(word, '/');
    CutConcat(directory, word, '/');
    assert directory + "/" + word == directory + ['/'] + word;
    KeptConcat(SplitOn(directory, '/'), [word]);
    OneKept(word);
  }

  /**
   Which documents an issue that is not about documentation may not touch: every markdown file, and every readme in any
   directory. An issue about documentation may touch them all.
  */
  lemma {:induction false} DocumentsRefused(file: string, directory: string, word: string, context: Investigation)
    ensures context.category == "Documentation" ==> !UnrelatedDocument(file, context)
    ensures context.category != "Documentation" && Markdown(file) ==> UnrelatedDocument(file, context)
    ensures context.category != "Documentation" && Readme(word) ==>
              UnrelatedDocument(directory + "/" + word, context) && UnrelatedDocument(word, context)
  {
    hide Lower, Name, EndsWith;
    MarkdownEnds(file);
    if Readme(word) {
      ReadmeNamed(directory, word);
    }
  }

  // ----- the messages -----

  function When(applies: bool, message: string): seq<string> {
    if applies then [message] else []
  }

  function FileErrors(file: string, s: Surroundings): seq<string> {
    When(s.escapes(file), "unsafe path escapes repository: " + file)
    + When(Generated(file), "unsafe generated/vendor path: " + file)
    + When(s.context.Some? && UnrelatedDocument(file, s.context.value),
           "non-documentation issue cannot modify documentation file: " + file)
  }

  function FileWarnings(file: string, s: Surroundings): seq<string> {
    When(!s.exists_(file), "patch creates or references missing file: " + file)
    + When(s.context.Some? && !UnrelatedDocument(file, s.context.value) && !s.context.value.supported(file),
           "modified file is outside investigated source context: " + file)
  }

  function FileRejected(file: string, s: Surroundings): seq<string> {
    When(s.context.Some? && UnrelatedDocument(file, s.context.value), file)
  }

  /** What a check says about every file, in order. */
  function Collected(files: seq<string>, s: Surroundings, check: (string, Surroundings) -> seq<string>): seq<string>
    decreases |files|
  {
    if files == [] then [] else Collected(files[..|files| - 1], s, check) + check(files[|files| - 1], s)
  }

  lemma {:induction false} CollectedElements(files: seq<string>, s: Surroundings, check: (string, Surroundings) -> seq<string>)
    ensures forall m :: m in Collected(files, s, check) <==> exists i :: 0 <= i < |files| && m in check(files[i], s)
    decreases |files|
  {
    if files == [] {
    } else {
      var init, last := files[..|files| - 1], files[|files| - 1];
      CollectedElements(init, s, check);
      forall m
        ensures m in Collected(files, s, check) <==> exists i :: 0 <= i < |files| && m in check(files[i], s)
      {
        if m in Collected(init, s, check) {
          var i :| 0 <= i < |init| && m in check(init[i], s);
          assert files[i] == init[i];
        } else if m in check(last, s) {
          assert files[|files| - 1] == last;
        } else {
          forall i | 0 <= i < |files|
            ensures m !in check(files[i], s)
          {
            if i < |init| {
              assert init[i] == files[i];
            }
          }
        }
      }
    }
  }

  lemma {:induction false} CollectedNothing(files: seq<string>, s: Surroundings, check: (string, Surroundings) -> seq<string>)
    ensures Collected(files, s, check) == [] <==> forall f :: f in files ==> check(f, s) == []
  {
    CollectedElements(files, s, check);
    forall f | f in files && check(f, s) != []
      ensures Collected(files, s, check) != []
    {
      var i :| 0 <= i < |files| && files[i] == f;
      var m := check(f, s)[0];
      assert m in check(files[i], s);
      assert m in Collected(files, s, check);
    }
    if Collected(files, s, check) != [] {
      assert Collected(files, s, check)[0] in Collected(files, s, check);
    }
  }

  function FormatErrors(diff: string, limits: Limits): seq<string> {
    When(Strip(diff) == "", "diff is empty")
    + When(!Contains(diff, "--- ") || !Contains(diff, "+++ ") || !Contains(diff, "@@"), "diff is not valid unified diff format")
    + When(|Dedupe(NamedFiles(SplitOn(diff, '\n')))| > limits.maxFiles, "patch modifies too many files")
  }

  function LimitErrors(diff: string, limits: Limits, s: Surroundings): seq<string> {
    When(s.context.Some? && s.context.value.evidence < limits.minEvidence, "root cause evidence is insufficient for patch generation")
    + When(CountLines(SplitLines(diff), "+") + CountLines(SplitLines(diff), "-") > limits.maxLines, "patch changes too many lines")
  }

  /** The validator's whole answer. */
  function ValidationOf(diff: string, limits: Limits, s: Surroundings): PatchValidation {
    var files := Dedupe(NamedFiles(SplitOn(diff, '\n')));
    var errors := FormatErrors(diff, limits) + Collected(files, s, FileErrors) + LimitErrors(diff, limits, s);
    PatchValidation(errors == [], errors, Collected(files, s, FileWarnings), files, Collected(files, s, FileRejected))
  }

  lemma {:induction false} FileMessages(file: string, s: Surroundings)
    ensures FileErrors(file, s) == [] <==> FileAcceptable(file, s)
    ensures FileWarnings(file, s) == [] <==> !Doubtful(file, s)
  {
    hide Generated, UnrelatedDocument;
  }

  /** A diff is valid exactly when it is acceptable, and is warned about exactly when it names a doubtful file. */
  lemma {:induction false} ValidExactly(diff: string, limits: Limits, s: Surroundings)
    ensures var r := ValidationOf(diff, limits, s);
            && (r.valid <==> r.errors == []) && (r.valid <==> Acceptable(diff, limits, s))
            && (r.warnings == [] <==> forall f :: f in r.files ==> !Doubtful(f, s))
            && (forall f :: f in r.rejected <==> f in r.files && s.context.Some? && UnrelatedDocument(f, s.context.value))
  {
    hide FileAcceptable, UnrelatedDocument, Doubtful, CountLines, Contains, Strip, NamedFiles, SplitOn, Collected, FileErrors, FileWarnings;
    var files := Dedupe(NamedFiles(SplitOn(diff, '\n')));
    CollectedNothing(files, s, FileErrors);
    CollectedNothing(files, s, FileWarnings);
    CollectedElements(files, s, FileRejected);
    forall f
      ensures FileErrors(f, s) == [] <==> FileAcceptable(f, s)
      ensures FileWarnings(f, s) == [] <==> !Doubtful(f, s)
    {
      FileMessages(f, s);
    }
    forall f | f in files && s.context.Some? && UnrelatedDocument(f, s.context.value)
      ensures f in Collected(files, s, FileRejected)
    {
      var i :| 0 <= i < |files| && files[i] == f;
      assert f in FileRejected(files[i], s);
    }
  }

  // ----- the validator -----

  /** The checks of one file. */
  method CheckFile(file: string, s: Surroundings) returns (errors: seq<string>, warnings: seq<string>, rejected: seq<string>)
    ensures errors == FileErrors(file, s) && warnings == FileWarnings(file, s) && rejected == FileRejected(file, s)
    ensures errors == [] <==> FileAcceptable(file, s)
    ensures warnings == [] <==> !Doubtful(file, s)
  {
    hide Generated, UnrelatedDocument, FileAcceptable, Doubtful;
    FileMessages(file, s);
    errors, warnings, rejected := [], [], [];
    if s.escapes(file) {
      errors := errors + ["unsafe path escapes repository: " + file];
    }
    if Generated(file) {
      errors := errors + ["unsafe generated/vendor path: " + file];
    }
    if !s.exists_(file) {
      warnings := warnings + ["patch creates or references missing file: " + file];
    }
    if s.context.Some? {
      if UnrelatedDocument(file, s.context.value) {
        errors := errors + ["non-documentation issue cannot modify documentation file: " + file];
        rejected := rejected + [file];
      } else if !s.context.value.supported(file) {
        warnings := warnings + ["modified file is outside investigated source context: " + file];
      }
    }
  }

  /** The loop over the files, appending to the three lists. */
  method CheckFiles(files: seq<string>, s: Surroundings) returns (errors: seq<string>, warnings: seq<string>, rejected: seq<string>)
    ensures errors == Collected(files, s, FileErrors)
    ensures warnings == Collected(files, s, FileWarnings)
    ensures rejected == Collected(files, s, FileRejected)
  {
    hide FileErrors, FileWarnings, FileRejected, FileAcceptable, Doubtful;
    errors, warnings, rejected := [], [], [];
    for i := 0 to |files|
      invariant errors == Collected(files[..i], s, FileErrors)
      invariant warnings == Collected(files[..i], s, FileWarnings)
      invariant rejected == Collected(files[..i], s, FileRejected)
    {
      assert files[..i + 1][..i] == files[..i];
      var e, w, r := CheckFile(files[i], s);
      errors, warnings, rejected := errors + e, warnings + w, rejected + r;
    }
    assert files[..|files|] == files;
  }

  /**
   `PatchValidator.validate`: exactly these errors, warnings, files and rejected files, in this order; valid exactly
   when there is no error, and exactly when the diff is acceptable.
  */
  method ValidatePatch(diff: string, limits: Limits, s: Surroundings) returns (r: PatchValidation)
    ensures r == ValidationOf(diff, limits, s)
    ensures r.valid <==> r.errors == []
    ensures r.valid <==> Acceptable(diff, limits, s)
    ensures r.warnings == [] <==> forall f :: f in r.files ==> !Doubtful(f, s)
    ensures r.files == Dedupe(NamedFiles(SplitOn(diff, '\n')))
    ensures forall f :: f in r.rejected <==> f in r.files && s.context.Some? && UnrelatedDocument(f, s.context.value)
  {
    hide UnrelatedDocument, Doubtful, CountLines, Contains, Strip, NamedFiles, SplitOn, Acceptable, Collected, FileErrors, FileWarnings, FileRejected, Dedupe;
    var errors := CheckFormat(diff, limits);
    var files := Dedupe(NamedFiles(SplitOn(diff, '\n')));
    var fileErrors, warnings, rejected := CheckFiles(files, s);
    errors := errors + fileErrors;
    ghost var before := errors;
    if s.context.Some? && s.context.value.evidence < limits.minEvidence {
      errors := errors + ["root cause evidence is insufficient for patch generation"];
    }
    if CountLines(SplitLines(diff), "+") + CountLines(SplitLines(diff), "-") > limits.maxLines {
      errors := errors + ["patch changes too many lines"];
    }
    assert errors == before + LimitErrors(diff, limits, s);
    NoRepeatedSections(diff);
    ValidExactly(diff, limits, s);
    r := PatchValidation(errors == [], errors, warnings, files, rejected);
  }

  /** The first checks of `validate`. */
  method CheckFormat(diff: string, limits: Limits) returns (errors: seq<string>)
    ensures errors == FormatErrors(diff, limits)
  {
    hide Contains, Strip, NamedFiles, SplitOn, Dedupe;
    errors := [];
    if Strip(diff) == "" {
      errors := errors + ["diff is empty"];
    }
    if !Contains(diff, "--- ") || !Contains(diff, "+++ ") || !Contains(diff, "@@") {
      errors := errors + ["diff is not valid unified diff format"];
    }
    if |Dedupe(NamedFiles(SplitOn(diff, '\n')))| > limits.maxFiles {
      errors := errors + ["patch modifies too many files"];
    }
  }

  /**
   In a diff with CRLF line ends the documentation check sees names that end in a carriage return, and never objects,
   whatever document is named and wherever it lies.
  */
  lemma {:induction false} CarriageReturnHidesDocument(name: string, context: Investigation)
    ensures !UnrelatedDocument(name + "\r", context)
    ensures context.category != "Documentation" ==> UnrelatedDocument("README.md", context)
  {
    hide Lower, Name, EndsWith;
    var ended := name + "\r";
    NameEndsAlike(ended);
    LowerKeepsReturn(ended);
    LowerKeepsReturn(Name(ended));
    LastOfWord(Lower(ended));
    LastOfWord(Lower(Name(ended)));
    ReadmeIsDocument();
  }

  lemma {:induction false} LowerKeepsReturn(text: string)
    requires text != "" && text[|text| - 1] == '\r'
    ensures var lowered := Lower(text); lowered != "" && lowered[|lowered| - 1] == '\r'
  {
  }

  lemma {:induction false} LastOfWord(word: string)
    requires word != "" && word[|word| - 1] == '\r'
    ensures !EndsWith(word, ".md") && word !in DOCUMENT_NAMES
  {
    assert "readme"[5] == 'e' && "readme.md"[8] == 'd' && "contributing.md"[14] == 'd';
  }

  lemma {:induction false} ReadmeIsDocument()
    ensures EndsWith(Lower("README.md"), ".md")
  {
    assert Lower("README.md")[6..] == ".md";
  }
}
