/** Which files a search pass finds, said of what stands in them. */
module Relevance {
  import opened Results
  import opened Text
  import opened PyDict
  import opened PySeq
  import opened PyPath
  import opened Scoring
  import opened Ranking

  /** The term stands in the text, in any capitals; terms are in lower case. */
  predicate Occurs(text: string, term: string) {
    exists i :: 0 <= i <= |text| - |term| && SpelledAt(text, term, i)
  }

  predicate SpelledAt(text: string, term: string, i: int)
    requires 0 <= i <= |text| - |term|
  {
    forall k :: 0 <= k < |term| ==> LowerChar(text[i + k]) == term[k]
  }

  /** The term occurs in the file's path, in the text read from it, or in one of its symbols. */
  predicate Mentions(file: File, term: string) {
    Occurs(file.path, term) || Occurs(file.text, term) || exists s :: s in file.symbols && Occurs(s, term)
  }

  lemma {:induction false} StartsAt(text: string, term: string, i: nat)
    requires i <= |text| - |term|
    ensures StartsWith(Lower(text)[i..], term) <==> SpelledAt(text, term, i)
  {
    var at := Lower(text)[i..];
    assert |at| >= |term| && forall k :: 0 <= k < |term| ==> at[..|term|][k] == LowerChar(text[i + k]);
    if SpelledAt(text, term, i) {
      assert at[..|term|] == term;
    }
  }

  lemma {:induction false} ContainsIsOccurs(text: string, term: string)
    ensures Contains(Lower(text), term) <==> Occurs(text, term)
  {
    hide Lower, StartsWith, SpelledAt;
    forall i: nat | i <= |text| - |term|
      ensures StartsWith(Lower(text)[i..], term) <==> SpelledAt(text, term, i)
    {
      StartsAt(text, term, i);
    }
    forall i | 0 <= i <= |Lower(text)| && StartsWith(Lower(text)[i..], term)
      ensures i <= |text| - |term|
    {
      TooFar(Lower(text), term, i);
    }
  }

  lemma {:induction false} TooFar(text: string, term: string, i: nat)
    requires i <= |text| && StartsWith(text[i..], term)
    ensures i <= |text| - |term|
  {
  }

  /** The places in the list of the terms that occur. */
  ghost function Occurring(text: string, terms: seq<string>): set<nat> {
    set i: nat | i < |terms| && Occurs(text, terms[i])
  }

  lemma {:induction false} OccurringNext(text: string, terms: seq<string>, term: string)
    ensures |Occurring(text, terms + [term])| == |Occurring(text, terms)| + if Occurs(text, term) then 1 else 0
  {
    hide Occurs;
    var longer := terms + [term];
    assert Occurring(text, longer) == Occurring(text, terms) + if Occurs(text, term) then {|terms|} else {};
    assert |terms| !in Occurring(text, terms);
  }

  lemma {:induction false} FilterCounts(terms: seq<string>, p: string -> bool, text: string)
    requires forall t :: p(t) <==> Occurs(text, t)
    ensures |Filter(terms, p)| == |Occurring(text, terms)|
    decreases |terms|
  {
    hide Occurs, Filter;
    if terms == [] {
      NothingFiltered(p);
      assert Occurring(text, []) == {};
    } else {
      var n := |terms| - 1;
      assert terms == terms[..n] + [terms[n]];
      FilterCounts(terms[..n], p, text);
      FilterNext(terms[..n], terms[n], p);
      OccurringNext(text, terms[..n], terms[n]);
    }
  }

  lemma {:induction false} NothingFiltered(p: string -> bool)
    ensures Filter([], p) == []
  {
  }

  lemma {:induction false} FilterNext(xs: seq<string>, x: string, p: string -> bool)
    ensures Filter(xs + [x], p) == Filter(xs, p) + if p(x) then [x] else []
  {
    if xs == [] {
      assert xs + [x] == [x] && [x][1..] == [];
    } else {
      assert (xs + [x])[1..] == xs[1..] + [x];
      FilterNext(xs[1..], x, p);
    }
  }

  /** A file's hits are the terms of the plan that occur in its path, and those that occur in its text, one for each. */
  lemma {:induction false} HitsCounted(file: File, terms: seq<string>)
    ensures FilenameHits(file, terms) == |Occurring(file.path, terms)|
    ensures KeywordHits(file, terms) == |Occurring(file.text, terms)|
  {
    hide Contains, Lower, Occurs, Filter, Occurring;
    forall text: string, term: string
      ensures Contains(Lower(text), term) <==> Occurs(text, term)
    {
      ContainsIsOccurs(text, term);
    }
    FilterCounts(terms, t => Contains(Lower(file.path), t), file.path);
    FilterCounts(terms, t => Contains(Lower(file.text), t), file.text);
  }

  /** A term of the plan is mentioned, or a hint of the category stands in the path. */
  ghost predicate Touched(file: File, terms: seq<string>, category: Category) {
    || (exists t :: t in terms && Mentions(file, t))
    || (exists h :: h in category.hints && Occurs(file.path, h))
  }

  lemma {:induction false} HitsOfTerms(file: File, terms: seq<string>)
    ensures FilenameHits(file, terms) > 0 || KeywordHits(file, terms) > 0 || SymbolHits(file, terms) != []
            <==> exists t :: t in terms && Mentions(file, t)
  {
    hide Contains, Lower, Occurs, FilenameHits, KeywordHits, SymbolHits;
    HitsOfText(file, terms);
    HitsOfSymbols(file, terms);
    if s :| s in file.symbols && exists i :: 0 <= i < |terms| && Occurs(s, terms[i]) {
      var i :| 0 <= i < |terms| && Occurs(s, terms[i]);
      assert terms[i] in terms && Mentions(file, terms[i]);
    }
  }

  lemma {:induction false} HitsOfText(file: File, terms: seq<string>)
    ensures FilenameHits(file, terms) > 0 <==> exists t :: t in terms && Occurs(file.path, t)
    ensures KeywordHits(file, terms) > 0 <==> exists t :: t in terms && Occurs(file.text, t)
  {
    hide Contains, Lower, Occurs;
    forall text: string, term: string
      ensures Contains(Lower(text), term) <==> Occurs(text, term)
    {
      ContainsIsOccurs(text, term);
    }
    NotEmpty(Filter(terms, t => Contains(Lower(file.path), t)));
    NotEmpty(Filter(terms, t => Contains(Lower(file.text), t)));
  }

  lemma {:induction false} HitsOfSymbols(file: File, terms: seq<string>)
    ensures SymbolHits(file, terms) != [] <==> exists s :: s in file.symbols && exists i :: 0 <= i < |terms| && Occurs(s, terms[i])
  {
    hide Contains, Lower, Occurs;
    forall text: string, term: string
      ensures Contains(Lower(text), term) <==> Occurs(text, term)
    {
      ContainsIsOccurs(text, term);
    }
    NotEmpty(SymbolHits(file, terms));
  }

  lemma {:induction false} NotEmpty(xs: seq<string>)
    ensures xs != [] <==> exists x :: x in xs
  {
    if xs != [] {
      assert xs[0] in xs;
    }
  }

  lemma {:induction false} HitsOfHints(file: File, category: Category)
    ensures PathHits(file, category) != [] <==> exists h :: h in category.hints && Occurs(file.path, h)
  {
    hide Contains, Lower, Occurs;
    forall text: string, term: string
      ensures Contains(Lower(text), term) <==> Occurs(text, term)
    {
      ContainsIsOccurs(text, term);
    }
    NotEmpty(PathHits(file, category));
  }

  /** The sum of the contributions, in half points. */
  lemma {:induction false} Summed(names: nat, keywords: nat, symbols: nat, hints: nat)
    ensures SumPoints(HitContributions(names, keywords, symbols, hints))
         == Min(12 * names, 36) + Min(5 * keywords, 30) + (if symbols > 0 then 20 + 2 * symbols else 0) + Min(8 * hints, 24)
  {
    hide SumPoints, Min;
    var a := [] + When(names > 0, "filename", Min(12 * names, 36));
    var b := a + When(keywords > 0, "keyword", Min(5 * keywords, 30));
    var c := b + When(symbols > 0, "symbol", 20 + 2 * symbols);
    NoPoints();
    SumWhen([], names > 0, "filename", Min(12 * names, 36));
    SumWhen(a, keywords > 0, "keyword", Min(5 * keywords, 30));
    SumWhen(b, symbols > 0, "symbol", 20 + 2 * symbols);
    SumWhen(c, hints > 0, "category_path", Min(8 * hints, 24));
    ZeroCapped();
  }

  lemma {:induction false} ZeroCapped()
    ensures Min(12 * 0, 36) == 0 && Min(5 * 0, 30) == 0 && Min(8 * 0, 24) == 0
  {
  }

  lemma {:induction false} NoPoints()
    ensures SumPoints([]) == 0
  {
  }

  lemma {:induction false} SumWhen(cs: seq<Contribution>, applies: bool, reason: string, halfPoints: int)
    ensures SumPoints(cs + When(applies, reason, halfPoints)) == SumPoints(cs) + if applies then halfPoints else 0
  {
    if applies {
      SumOne(cs, reason, halfPoints);
    } else {
      assert cs + [] == cs;
    }
  }

  /** The points of a file in one pass, from its four counts and its three marks. */
  lemma {:induction false} PointsOf(root: string, file: File, terms: seq<string>, category: Category)
    ensures var penalized := NonEngineering(FileName(file.path)) && !category.documentation;
            SumPoints(Contributions(root, file, terms, category))
            == Min(12 * FilenameHits(file, terms), 36) + Min(5 * KeywordHits(file, terms), 30)
               + (if SymbolHits(file, terms) != [] then 20 + 2 * |SymbolHits(file, terms)| else 0)
               + Min(8 * |PathHits(file, category)|, 24)
               + (if IsTestFile(root, file.path) then 4 else 0)
               + (if penalized then -24 else if Manifest(FileName(file.path)) then 3 else 0)
  {
    hide SumPoints, Min, When, HitContributions, FilenameHits, KeywordHits, SymbolHits, PathHits, IsTestFile, NonEngineering, Manifest, FileName;
    var name := FileName(file.path);
    var penalized := NonEngineering(name) && !category.documentation;
    var hits := HitContributions(FilenameHits(file, terms), KeywordHits(file, terms), |SymbolHits(file, terms)|, |PathHits(file, category)|);
    Summed(FilenameHits(file, terms), KeywordHits(file, terms), |SymbolHits(file, terms)|, |PathHits(file, category)|);
    var a := hits + When(IsTestFile(root, file.path), "test", 4);
    var b := a + When(penalized, "non_engineering_penalty", -24);
    SumWhen(hits, IsTestFile(root, file.path), "test", 4);
    SumWhen(a, penalized, "non_engineering_penalty", -24);
    SumWhen(b, !penalized && Manifest(name), "metadata", 3);
  }

  /**
   Exactly which files a pass finds, leaving the penalized ones aside: those that mention a term of the plan in their
   path, text or symbols, in any capitals, those with a hint of the category in their path, tests and manifests.
  */
  lemma {:induction false} CandidateExactly(root: string, file: File, plan: Plan, category: Category)
    requires category.documentation || !NonEngineering(FileName(file.path))
    ensures Scored(root, file, plan, category).Some?
            <==> Touched(file, plan.terms, category) || IsTestFile(root, file.path) || Manifest(FileName(file.path))
  {
    hide Contributions, SumPoints, FilenameHits, KeywordHits, SymbolHits, PathHits, IsTestFile, NonEngineering, Manifest, FileName, Mentions, Dedupe;
    PointsOf(root, file, plan.terms, category);
    HitsOfTerms(file, plan.terms);
    HitsOfHints(file, category);
  }

  /**
   A penalized file, a readme or a license when the issue is not about documentation, needs more than twelve points: up to
   two terms in its path and text never find it.
  */
  lemma {:induction false} PenalizedNeedsMore(root: string, file: File, plan: Plan, category: Category)
    requires !category.documentation && NonEngineering(FileName(file.path))
    requires SymbolHits(file, plan.terms) == [] && PathHits(file, category) == [] && !IsTestFile(root, file.path)
    ensures Scored(root, file, plan, category).Some?
            <==> Min(12 * FilenameHits(file, plan.terms), 36) + Min(5 * KeywordHits(file, plan.terms), 30) > 24
    ensures FilenameHits(file, plan.terms) + KeywordHits(file, plan.terms) <= 2 ==> Scored(root, file, plan, category).None?
  {
    hide Contributions, SumPoints, FilenameHits, KeywordHits, SymbolHits, PathHits, IsTestFile, NonEngineering, Manifest, FileName, Dedupe;
    PointsOf(root, file, plan.terms, category);
  }

  /** A path is as deep as it has pieces between slashes. */
  lemma {:induction false} DepthCounts(path: string)
    ensures Depth(path) == |SplitOn(path, '/')|
    decreases |path|
  {
    hide SplitOn;
    if '/' in path {
      var first, rest := FirstCut(path, '/');
      DepthCounts(rest);
      DepthAfter(first, ['/'] + rest);
      assert path == first + (['/'] + rest);
      assert (['/'] + rest)[1..] == rest;
    } else {
      Uncut(path, '/');
      DepthAfter(path, "");
      assert path + "" == path;
    }
  }

  lemma {:induction false} DepthAfter(first: string, rest: string)
    requires '/' !in first
    ensures Depth(first + rest) == Depth(rest)
  {
    if first == "" {
      assert first + rest == rest;
    } else {
      assert (first + rest)[1..] == first[1..] + rest;
      DepthAfter(first[1..], rest);
    }
  }
}
