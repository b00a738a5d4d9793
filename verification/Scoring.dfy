/** Repository search, one pass over one file: what counts for it and against it. */
module Scoring {
  import opened Results
  import opened Text
  import opened PyDict
  import opened PySeq

  /** A file below the repository: its relative path with forward slashes, the text sampled, the symbols found in it. */
  datatype File = File(path: string, text: string, symbols: seq<string>)

  /** The issue's category: its path hints, and whether it is "Documentation". */
  datatype Category = Category(hints: seq<string>, documentation: bool)

  datatype Plan = Plan(name: string, terms: seq<string>)

  /** Scores are counted in half points: every weight is a multiple of 0.5. */
  datatype Candidate = Candidate(
    path: string,
    score: int,
    reasons: seq<string>,
    symbols: seq<string>,
    categoryHits: seq<string>,
    passes: seq<string>)

  // ----- one pass over one file -----

  function Filter(xs: seq<string>, p: string -> bool): (r: seq<string>)
    ensures forall x :: x in r <==> x in xs && p(x)
    ensures |r| <= |xs|
  {
    if xs == [] then [] else (if p(xs[0]) then [xs[0]] else []) + Filter(xs[1..], p)
  }

  function FileName(path: string): string
    decreases |path|
  {
    var n := FirstIndex(path, c => c == '/');
    if n == |path| then path else FileName(path[n + 1..])
  }

  predicate IsTestFile(root: string, path: string) {
    var lowered := Lower(root + "/" + path);
    Contains(lowered, "test") || Contains(lowered, "spec")
  }

  predicate NonEngineering(name: string) {
    Lower(name) in {"readme", "readme.md", "contributing.md", "code_of_conduct.md", "license", "security.md"}
  }

  predicate Manifest(name: string) {
    name in {"pyproject.toml", "package.json", "Cargo.toml", "go.mod"}
  }

  function SymbolHits(file: File, terms: seq<string>): seq<string> {
    Filter(file.symbols, s => exists i :: 0 <= i < |terms| && Contains(Lower(s), terms[i]))
  }

  function FilenameHits(file: File, terms: seq<string>): nat {
    |Filter(terms, t => Contains(Lower(file.path), t))|
  }

  function KeywordHits(file: File, terms: seq<string>): nat {
    |Filter(terms, t => Contains(Lower(file.text), t))|
  }

  function PathHits(file: File, category: Category): seq<string> {
    Filter(category.hints, h => Contains(Lower(file.path), h))
  }

  datatype Contribution = Contribution(reason: string, halfPoints: int)

  function When(applies: bool, reason: string, halfPoints: int): seq<Contribution> {
    if applies then [Contribution(reason, halfPoints)] else []
  }

  function HitContributions(names: nat, keywords: nat, symbols: nat, hints: nat): seq<Contribution> {
    [] + When(names > 0, "filename", Min(12 * names, 36))
    + When(keywords > 0, "keyword", Min(5 * keywords, 30))
    + When(symbols > 0, "symbol", 20 + 2 * symbols)
    + When(hints > 0, "category_path", Min(8 * hints, 24))
  }

  /** What counts for or against a file in one pass. */
  function Contributions(root: string, file: File, terms: seq<string>, category: Category): seq<Contribution> {
    var name := FileName(file.path);
    var penalized := NonEngineering(name) && !category.documentation;
    HitContributions(FilenameHits(file, terms), KeywordHits(file, terms), |SymbolHits(file, terms)|, |PathHits(file, category)|)
    + When(IsTestFile(root, file.path), "test", 4)
    + When(penalized, "non_engineering_penalty", -24)
    + When(!penalized && Manifest(name), "metadata", 3)
  }

  function SumPoints(cs: seq<Contribution>): int {
    if cs == [] then 0 else SumPoints(cs[..|cs| - 1]) + cs[|cs| - 1].halfPoints
  }

  function ReasonNames(cs: seq<Contribution>): (r: seq<string>)
    ensures |r| == |cs| && forall i :: 0 <= i < |cs| ==> r[i] == cs[i].reason
  {
    seq(|cs|, i requires 0 <= i < |cs| => cs[i].reason)
  }

  /** A file's candidate in one pass: the sum of its contributions, when positive. */
  function Scored(root: string, file: File, plan: Plan, category: Category): (r: Option<Candidate>)
    ensures r.Some? ==> r.value.path == file.path && r.value.score > 0
  {
    var parts := Contributions(root, file, plan.terms, category);
    if SumPoints(parts) <= 0 then None
    else Some(Candidate(file.path, SumPoints(parts), Dedupe(ReasonNames(parts)), SymbolHits(file, plan.terms),
                        Dedupe(PathHits(file, category)), [plan.name]))
  }

  /** A score and a list of reasons that account for exactly these contributions. */
  ghost predicate Tallied(parts: seq<Contribution>, score: int, reasons: seq<string>) {
    score == SumPoints(parts) && reasons == ReasonNames(parts)
  }

  lemma {:induction false} NothingTallied()
    ensures Tallied([], 0, [])
  {
  }

  lemma {:induction false} TallyWhen(parts: seq<Contribution>, score: int, reasons: seq<string>, applies: bool, reason: string, halfPoints: int)
    requires Tallied(parts, score, reasons)
    ensures Tallied(parts + When(applies, reason, halfPoints),
                    if applies then score + halfPoints else score,
                    if applies then reasons + [reason] else reasons)
  {
    if applies {
      assert (parts + [Contribution(reason, halfPoints)])[..|parts|] == parts;
    } else {
      assert parts + [] == parts;
    }
  }

  /** `_score_candidate` */
  method ScoreCandidate(root: string, file: File, plan: Plan, category: Category) returns (r: Option<Candidate>)
    ensures r == Scored(root, file, plan, category)
  {
    hide Contains, Lower, Tallied, When, IsTestFile, NonEngineering, Manifest, FileName, Filter, SymbolHits, PathHits, FilenameHits, KeywordHits, Min;
    var symbolHits := SymbolHits(file, plan.terms);
    var filenameHits := FilenameHits(file, plan.terms);
    var keywordHits := KeywordHits(file, plan.terms);
    var pathHits := PathHits(file, category);
    var score, reasons;
    ghost var parts;
    score, reasons, parts := TallyHits(filenameHits, keywordHits, |symbolHits|, |pathHits|);
    var name := FileName(file.path);
    var tests, penalized := IsTestFile(root, file.path), NonEngineering(name) && !category.documentation;
    TallyWhen(parts, score, reasons, tests, "test", 4);
    parts := parts + When(tests, "test", 4);
    if tests {
      score := score + 4;
      reasons := reasons + ["test"];
    }
    TallyWhen(parts, score, reasons, penalized, "non_engineering_penalty", -24);
    parts := parts + When(penalized, "non_engineering_penalty", -24);
    if penalized {
      score := score - 24;
      reasons := reasons + ["non_engineering_penalty"];
    }
    var metadata := !penalized && Manifest(name);
    TallyWhen(parts, score, reasons, metadata, "metadata", 3);
    parts := parts + When(metadata, "metadata", 3);
    if metadata {
      score := score + 3;
      reasons := reasons + ["metadata"];
    }
    assert parts == Contributions(root, file, plan.terms, category);
    AsTallied(parts, score, reasons);
    if score <= 0 {
      return None;
    }
    r := Some(Candidate(file.path, score, Dedupe(reasons), symbolHits, Dedupe(pathHits), [plan.name]));
  }

  lemma {:induction false} AsTallied(parts: seq<Contribution>, score: int, reasons: seq<string>)
    requires Tallied(parts, score, reasons)
    ensures score == SumPoints(parts) && reasons == ReasonNames(parts)
  {
  }

  /** The first half of `_score_candidate`: what the four counts of hits contribute. */
  method TallyHits(names: nat, keywords: nat, symbols: nat, hints: nat) returns (score: int, reasons: seq<string>, ghost parts: seq<Contribution>)
    ensures parts == HitContributions(names, keywords, symbols, hints)
    ensures Tallied(parts, score, reasons)
  {
    hide Tallied, When, Min;
    NothingTallied();
    score, reasons, parts := 0, [], [];
    TallyWhen(parts, score, reasons, names > 0, "filename", Min(12 * names, 36));
    parts := parts + When(names > 0, "filename", Min(12 * names, 36));
    if names > 0 {
      score := score + Min(12 * names, 36);
      reasons := reasons + ["filename"];
    }
    TallyWhen(parts, score, reasons, keywords > 0, "keyword", Min(5 * keywords, 30));
    parts := parts + When(keywords > 0, "keyword", Min(5 * keywords, 30));
    if keywords > 0 {
      score := score + Min(5 * keywords, 30);
      reasons := reasons + ["keyword"];
    }
    TallyWhen(parts, score, reasons, symbols > 0, "symbol", 20 + 2 * symbols);
    parts := parts + When(symbols > 0, "symbol", 20 + 2 * symbols);
    if symbols > 0 {
      score := score + 20 + 2 * symbols;
      reasons := reasons + ["symbol"];
    }
    TallyWhen(parts, score, reasons, hints > 0, "category_path", Min(8 * hints, 24));
    parts := parts + When(hints > 0, "category_path", Min(8 * hints, 24));
    if hints > 0 {
      score := score + Min(8 * hints, 24);
      reasons := reasons + ["category_path"];
    }
  }

  // ----- what counts as a test -----

  /** The words that make a file a test stand in this part of its path. */
  predicate TestWords(part: string) {
    Contains(Lower(part), "test") || Contains(Lower(part), "spec")
  }

  lemma {:induction false} LowerConcat(a: string, b: string)
    ensures Lower(a + b) == Lower(a) + Lower(b)
  {
  }

  /** A word without slashes stands before a slash or after it. */
  lemma {:induction false} WordAroundSlash(a: string, b: string, word: string)
    requires word != "" && '/' !in word
    ensures Contains(a + "/" + b, word) <==> Contains(a, word) || Contains(b, word)
  {
    var whole := a + "/" + b;
    if Contains(whole, word) {
      var i :| 0 <= i <= |whole| && StartsWith(whole[i..], word);
      assert forall k :: i <= k < i + |word| ==> whole[k] == whole[i..][..|word|][k - i] && whole[k] in word;
      assert whole[|a|] == '/';
      if i + |word| <= |a| {
        assert a[i..][..|word|] == word;
      } else {
        assert i > |a|;
        assert b[i - |a| - 1..] == whole[i..];
      }
    }
    if Contains(a, word) {
      var i :| 0 <= i <= |a| && StartsWith(a[i..], word);
      assert whole[i..][..|word|] == a[i..][..|word|];
      assert StartsWith(whole[i..], word);
    }
    if Contains(b, word) {
      var i :| 0 <= i <= |b| && StartsWith(b[i..], word);
      assert whole[|a| + 1 + i..] == b[i..];
    }
  }

  /** A file is a test exactly when a word stands in the checkout's path or in its own. */
  lemma {:induction false} TestByEitherPart(root: string, path: string)
    ensures IsTestFile(root, path) <==> TestWords(root) || TestWords(path)
  {
    hide Contains, Lower;
    LowerConcat(root + "/", path);
    LowerConcat(root, "/");
    assert Lower("/") == "/" by {
      LowerSlash();
    }
    WordAroundSlash(Lower(root), Lower(path), "test");
    WordAroundSlash(Lower(root), Lower(path), "spec");
  }

  lemma {:induction false} LowerSlash()
    ensures Lower("/") == "/"
  {
  }

  /**
   The words are looked for in the whole path, so every file of a repository counts as a test if and only if the
   path of its checkout contains "test" or "spec".
  */
  lemma {:induction false} TestDirectoryMarksAll(root: string)
    ensures (forall path: string :: path != "" ==> IsTestFile(root, path)) <==> TestWords(root)
  {
    hide IsTestFile;
    forall path: string
      ensures IsTestFile(root, path) <==> TestWords(root) || TestWords(path)
    {
      TestByEitherPart(root, path);
    }
    assert !TestWords("a") by {
      assert |Lower("a")| == 1;
    }
  }

  /** Below such a directory every file is a candidate of every pass, unless it is penalized. */
  lemma {:induction false} TestDirectoryCandidates(root: string, file: File, plan: Plan, category: Category)
    requires TestWords(root) && (category.documentation || !NonEngineering(FileName(file.path)))
    ensures Scored(root, file, plan, category).Some?
  {
    hide Contains, NonEngineering, Manifest, FileName, Filter, Dedupe, SumPoints, SymbolHits, PathHits, FilenameHits, KeywordHits, IsTestFile, TestWords;
    TestByEitherPart(root, file.path);
    var hits := HitContributions(FilenameHits(file, plan.terms), KeywordHits(file, plan.terms), |SymbolHits(file, plan.terms)|, |PathHits(file, category)|);
    HitsNonNegative(hits);
    SumOne(hits, "test", 4);
    assert hits + [Contribution("test", 4)] + [] == hits + [Contribution("test", 4)];
    SumOne(hits + [Contribution("test", 4)], "metadata", 3);
  }

  lemma {:induction false} SumOne(cs: seq<Contribution>, reason: string, halfPoints: int)
    ensures SumPoints(cs + [Contribution(reason, halfPoints)]) == SumPoints(cs) + halfPoints
  {
    assert (cs + [Contribution(reason, halfPoints)])[..|cs|] == cs;
  }

  lemma {:induction false} HitsNonNegative(cs: seq<Contribution>)
    requires forall i :: 0 <= i < |cs| ==> cs[i].halfPoints >= 0
    ensures SumPoints(cs) >= 0
    decreases |cs|
  {
    if cs == [] {
    } else {
      HitsNonNegative(cs[..|cs| - 1]);
    }
  }
}
