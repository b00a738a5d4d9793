/** Repository search: merging the passes over every file and ranking the candidates. */
module Search {
  import opened Results
  import opened PyDict
  import opened PySeq
  import opened Scoring
  import opened Ranking

  // ----- merging passes -----

  /** The candidates of one file, one per plan that scores it. */
  function PassesOf(root: string, file: File, plans: seq<Plan>, category: Category): seq<Candidate>
    decreases |plans|
  {
    if plans == [] then []
    else
      PassesOf(root, file, plans[..|plans| - 1], category) + IfScored(Scored(root, file, plans[|plans| - 1], category))
  }

  function IfScored(pass: Option<Candidate>): seq<Candidate> {
    match pass
    case Some(c) => [c]
    case None => []
  }

  lemma {:induction false} PassesBelong(root: string, file: File, plans: seq<Plan>, category: Category)
    ensures forall c :: c in PassesOf(root, file, plans, category) ==> c.path == file.path && c.score > 0
    decreases |plans|
  {
    hide Scored;
    if plans == [] {
    } else {
      PassesBelong(root, file, plans[..|plans| - 1], category);
    }
  }

  function SumScores(passes: seq<Candidate>): int {
    if passes == [] then 0 else SumScores(passes[..|passes| - 1]) + passes[|passes| - 1].score
  }

  function Joined(passes: seq<Candidate>, f: Candidate -> seq<string>): seq<string> {
    if passes == [] then [] else Joined(passes[..|passes| - 1], f) + f(passes[|passes| - 1])
  }

  /** All passes at once: scores add up, the lists are concatenated without repetitions; a single pass stays as it is. */
  function Combined(passes: seq<Candidate>): Candidate
    requires passes != []
  {
    if |passes| == 1 then passes[0]
    else
      Candidate(passes[0].path, SumScores(passes),
                Dedupe(Joined(passes, (c: Candidate) => c.reasons)),
                Dedupe(Joined(passes, (c: Candidate) => c.symbols)),
                Dedupe(Joined(passes, (c: Candidate) => c.categoryHits)),
                Dedupe(Joined(passes, (c: Candidate) => c.passes)))
  }

  /** The merge of a further pass into the candidate collected so far. */
  function Merge(sofar: Candidate, c: Candidate): Candidate {
    Candidate(c.path, sofar.score + c.score, Dedupe(sofar.reasons + c.reasons), Dedupe(sofar.symbols + c.symbols),
              Dedupe(sofar.categoryHits + c.categoryHits), Dedupe(sofar.passes + c.passes))
  }

  lemma {:induction false} JoinedSnoc(passes: seq<Candidate>, c: Candidate, f: Candidate -> seq<string>)
    ensures Joined(passes + [c], f) == Joined(passes, f) + f(c)
    ensures Joined([c], f) == f(c)
  {
    assert (passes + [c])[..|passes|] == passes;
    assert [c][..0] == [];
  }

  lemma {:induction false} MergedTexts(passes: seq<Candidate>, c: Candidate, f: Candidate -> seq<string>, sofar: seq<string>)
    requires passes != []
    requires sofar == if |passes| == 1 then f(passes[0]) else Dedupe(Joined(passes, f))
    ensures Dedupe(sofar + f(c)) == Dedupe(Joined(passes + [c], f))
  {
    hide Dedupe;
    JoinedSnoc(passes, c, f);
    if |passes| == 1 {
      assert passes == [passes[0]];
      JoinedSnoc([], passes[0], f);
    } else {
      DedupeAbsorbs(Joined(passes, f), f(c));
    }
  }

  /** Merging pass by pass gives what all passes at once give. */
  lemma {:induction false} MergeIsCombined(passes: seq<Candidate>, c: Candidate)
    requires passes != [] && passes[0].path == c.path
    ensures Combined(passes + [c]) == Merge(Combined(passes), c)
  {
    hide Dedupe, Joined;
    var sofar := Combined(passes);
    MergedTexts(passes, c, (c: Candidate) => c.reasons, sofar.reasons);
    MergedTexts(passes, c, (c: Candidate) => c.symbols, sofar.symbols);
    MergedTexts(passes, c, (c: Candidate) => c.categoryHits, sofar.categoryHits);
    MergedTexts(passes, c, (c: Candidate) => c.passes, sofar.passes);
    assert (passes + [c])[..|passes|] == passes;
    assert (passes + [c])[0] == passes[0];
    if |passes| == 1 {
      assert passes[..0] == [] && SumScores(passes) == passes[0].score;
    }
  }

  /** A pass that scored the file. */
  ghost predicate Says(passes: seq<Candidate>, f: Candidate -> seq<string>, x: string) {
    exists i :: 0 <= i < |passes| && x in f(passes[i])
  }

  lemma {:induction false} JoinedSays(passes: seq<Candidate>, f: Candidate -> seq<string>)
    ensures forall x :: x in Joined(passes, f) <==> Says(passes, f, x)
    decreases |passes|
  {
    if passes == [] {
    } else {
      var init, last := passes[..|passes| - 1], passes[|passes| - 1];
      JoinedSays(init, f);
      assert forall i :: 0 <= i < |init| ==> init[i] == passes[i];
      forall x
        ensures x in Joined(passes, f) <==> Says(passes, f, x)
      {
        if x in f(last) {
          assert x in f(passes[|passes| - 1]);
        }
      }
    }
  }

  /**
   What a file's passes make of it together: points add up, and a reason, symbol, hint or pass name is listed exactly when
   one of the passes lists it.
  */
  lemma {:induction false} CombinedAddsUp(passes: seq<Candidate>, c: Candidate)
    requires passes != []
    ensures Combined(passes + [c]).score == Combined(passes).score + c.score && Combined([c]) == c
    ensures var all := Combined(passes);
            && (forall x :: x in all.reasons <==> exists i :: 0 <= i < |passes| && x in passes[i].reasons)
            && (forall x :: x in all.symbols <==> exists i :: 0 <= i < |passes| && x in passes[i].symbols)
            && (forall x :: x in all.categoryHits <==> exists i :: 0 <= i < |passes| && x in passes[i].categoryHits)
            && (forall x :: x in all.passes <==> exists i :: 0 <= i < |passes| && x in passes[i].passes)
  {
    hide Dedupe, Joined, Says;
    assert (passes + [c])[..|passes|] == passes;
    OnePass(c);
    if |passes| == 1 {
      assert passes[..0] == [] && SumScores(passes) == passes[0].score;
    }
    Listed(passes, (c: Candidate) => c.reasons);
    Listed(passes, (c: Candidate) => c.symbols);
    Listed(passes, (c: Candidate) => c.categoryHits);
    Listed(passes, (c: Candidate) => c.passes);
  }

  lemma {:induction false} Listed(passes: seq<Candidate>, f: Candidate -> seq<string>)
    ensures forall x :: x in Dedupe(Joined(passes, f)) <==> exists i :: 0 <= i < |passes| && x in f(passes[i])
  {
    hide Joined;
    JoinedSays(passes, f);
  }

  /** The passes are those of the plans that score the file, in the order of the plans. */
  lemma {:induction false} PassesAreScored(root: string, file: File, plans: seq<Plan>, category: Category)
    ensures forall c :: c in PassesOf(root, file, plans, category)
                        <==> exists i :: 0 <= i < |plans| && Scored(root, file, plans[i], category) == Some(c)
    decreases |plans|
  {
    hide Scored;
    if plans == [] {
    } else {
      var init := plans[..|plans| - 1];
      PassesAreScored(root, file, init, category);
      assert forall i :: 0 <= i < |init| ==> init[i] == plans[i];
      forall c
        ensures c in PassesOf(root, file, plans, category)
                <==> exists i :: 0 <= i < |plans| && Scored(root, file, plans[i], category) == Some(c)
      {
        if Scored(root, file, plans[|plans| - 1], category) == Some(c) {
          assert c in IfScored(Scored(root, file, plans[|plans| - 1], category));
        }
      }
    }
  }

  // ----- the table of candidates -----

  predicate DistinctPaths(files: seq<File>) {
    forall i, j :: 0 <= i < j < |files| ==> files[i].path != files[j].path
  }

  function EntryOf(file: File, passes: seq<Candidate>): seq<Entry<Candidate>> {
    if passes == [] then [] else [Entry(file.path, Combined(passes))]
  }

  /** candidates_by_path after these files: one entry per file that some plan scores. */
  function Table(root: string, files: seq<File>, plans: seq<Plan>, category: Category): (r: seq<Entry<Candidate>>)
    decreases |files|
  {
    if files == [] then []
    else
      var file := files[|files| - 1];
      Table(root, files[..|files| - 1], plans, category) + EntryOf(file, PassesOf(root, file, plans, category))
  }

  /** Exactly the files with a scoring pass are in the table, each with its own combined passes. */
  lemma {:induction false} TableEntries(root: string, files: seq<File>, plans: seq<Plan>, category: Category)
    ensures forall e :: e in Table(root, files, plans, category)
                        <==> exists i :: 0 <= i < |files| && e in EntryOf(files[i], PassesOf(root, files[i], plans, category))
    decreases |files|
  {
    hide PassesOf, Combined;
    if files == [] {
    } else {
      var init, last := files[..|files| - 1], files[|files| - 1];
      TableEntries(root, init, plans, category);
      forall e
        ensures e in Table(root, files, plans, category)
                <==> exists i :: 0 <= i < |files| && e in EntryOf(files[i], PassesOf(root, files[i], plans, category))
      {
        if e in Table(root, init, plans, category) {
          var i :| 0 <= i < |init| && e in EntryOf(init[i], PassesOf(root, init[i], plans, category));
          assert files[i] == init[i];
        } else if e in EntryOf(last, PassesOf(root, last, plans, category)) {
          assert files[|files| - 1] == last;
        } else {
          forall i | 0 <= i < |files|
            ensures e !in EntryOf(files[i], PassesOf(root, files[i], plans, category))
          {
            if i < |init| {
              assert init[i] == files[i];
            }
          }
        }
      }
    }
  }

  lemma {:induction false} TableFresh(root: string, files: seq<File>, plans: seq<Plan>, category: Category, path: string)
    requires forall i :: 0 <= i < |files| ==> files[i].path != path
    ensures Fresh(Table(root, files, plans, category), path)
    decreases |files|
  {
    hide PassesOf, Combined;
    if files == [] {
    } else {
      TableFresh(root, files[..|files| - 1], plans, category, path);
    }
  }

  // ----- the search -----

  function Values(table: seq<Entry<Candidate>>): (r: seq<Candidate>)
    ensures |r| == |table| && forall i :: 0 <= i < |table| ==> r[i] == table[i].value
  {
    seq(|table|, i requires 0 <= i < |table| => table[i].value)
  }

  /** The search as a function: the ranked candidates of the table, sliced to the configured number. */
  function Found(root: string, files: seq<File>, plans: seq<Plan>, category: Category, maxFiles: int, minFiles: int): seq<Candidate> {
    Slice(Sorted(Values(Table(root, files, plans, category))), Max(maxFiles, minFiles))
  }

  /**
   `RepositorySearcher.search` on the files its walk yields, which never yields a path twice: the table is filled in
   walk order, pass by pass.
  */
  method Search(root: string, files: seq<File>, plans: seq<Plan>, category: Category, maxFiles: int, minFiles: int) returns (r: seq<Candidate>)
    requires DistinctPaths(files)
    ensures r == Found(root, files, plans, category, maxFiles, minFiles)
  {
    hide PassesOf, Combined, Sorted, Fresh;
    var table: seq<Entry<Candidate>> := [];
    for i := 0 to |files|
      invariant table == Table(root, files[..i], plans, category)
    {
      assert files[..i + 1][..i] == files[..i];
      TableFresh(root, files[..i], plans, category, files[i].path);
      table := AddPasses(table, root, files[i], plans, category);
    }
    assert files[..|files|] == files;
    r := Slice(Sorted(Values(table)), Max(maxFiles, minFiles));
  }

  /** The inner loop of `search`: every plan on one file. */
  method AddPasses(before: seq<Entry<Candidate>>, root: string, file: File, plans: seq<Plan>, category: Category) returns (table: seq<Entry<Candidate>>)
    requires Fresh(before, file.path)
    ensures table == before + EntryOf(file, PassesOf(root, file, plans, category))
  {
    hide Scored, Combined, Merge, Get, Put, Fresh, EntryOf;
    table := before;
    NoEntry(before, file);
    for j := 0 to |plans|
      invariant table == before + EntryOf(file, PassesOf(root, file, plans[..j], category))
    {
      assert plans[..j + 1][..j] == plans[..j];
      var candidate := ScoreCandidate(root, file, plans[j], category);
      ghost var passes := PassesOf(root, file, plans[..j], category);
      assert PassesOf(root, file, plans[..j + 1], category) == passes + IfScored(candidate);
      if candidate.Some? {
        PassesBelong(root, file, plans[..j], category);
        EntryLookup(before, file, passes, candidate.value);
        var existing := Get(table, file.path);
        table := Put(table, file.path,
                     match existing case None => candidate.value case Some(sofar) => Merge(sofar, candidate.value));
      } else {
        assert passes + [] == passes;
      }
    }
    assert plans[..|plans|] == plans;
  }

  lemma {:induction false} NoEntry(before: seq<Entry<Candidate>>, file: File)
    ensures before + EntryOf(file, []) == before
  {
  }

  /** Looking the file's path up, and putting a further pass there, in a table that ends with its entry so far. */
  lemma {:induction false} EntryLookup(before: seq<Entry<Candidate>>, file: File, passes: seq<Candidate>, c: Candidate)
    requires Fresh(before, file.path) && c.path == file.path
    requires forall x :: x in passes ==> x.path == file.path
    ensures var table := before + EntryOf(file, passes);
            var sofar := Get(table, file.path);
            && (sofar.None? <==> passes == [])
            && (passes != [] ==> sofar == Some(Combined(passes)))
            && Put(table, file.path, match sofar case None => c case Some(s) => Merge(s, c)) == before + EntryOf(file, passes + [c])
  {
    hide Combined, Merge, Get, Put;
    if passes == [] {
      assert before + EntryOf(file, passes) == before && passes + [c] == [c];
      assert Combined([c]) == c by {
        OnePass(c);
      }
      PutFresh(before, file.path, c);
    } else {
      assert passes[0] in passes;
      var sofar := Combined(passes);
      MergeIsCombined(passes, c);
      PutFresh(before, file.path, sofar);
      GetPut(before, file.path, sofar);
      PutPut(before, file.path, sofar, Merge(sofar, c));
      PutFresh(before, file.path, Merge(sofar, c));
    }
  }

  lemma {:induction false} OnePass(c: Candidate)
    ensures Combined([c]) == c
  {
  }

  // ----- what a search returns -----

  /** The candidates a set of files has, wherever the walk meets them. */
  ghost predicate CandidateOf(root: string, files: seq<File>, plans: seq<Plan>, category: Category, c: Candidate) {
    exists i :: 0 <= i < |files| && PassesOf(root, files[i], plans, category) != [] && c == Combined(PassesOf(root, files[i], plans, category))
  }

  lemma {:induction false} TableValues(root: string, files: seq<File>, plans: seq<Plan>, category: Category)
    requires DistinctPaths(files)
    ensures var values := Values(Table(root, files, plans, category));
            && (forall c :: c in values <==> CandidateOf(root, files, plans, category, c))
            && DistinctCandidates(values)
    decreases |files|
  {
    hide PassesOf, Combined;
    var table := Table(root, files, plans, category);
    TableEntries(root, files, plans, category);
    forall i | 0 <= i < |files| && PassesOf(root, files[i], plans, category) != []
      ensures Combined(PassesOf(root, files[i], plans, category)) in Values(table)
    {
      var e := Entry(files[i].path, Combined(PassesOf(root, files[i], plans, category)));
      assert e in EntryOf(files[i], PassesOf(root, files[i], plans, category));
      assert e in table;
      var k :| 0 <= k < |table| && table[k] == e;
      assert Values(table)[k] == e.value;
    }
    forall c
      ensures c in Values(table) <==> CandidateOf(root, files, plans, category, c)
    {
      if c in Values(table) {
        var i :| 0 <= i < |table| && table[i].value == c;
        assert table[i] in table;
      }
    }
    TableKeys(root, files, plans, category);
  }

  lemma {:induction false} TableKeys(root: string, files: seq<File>, plans: seq<Plan>, category: Category)
    requires DistinctPaths(files)
    ensures var table := Table(root, files, plans, category);
            && DistinctKeys(table)
            && (forall i :: 0 <= i < |table| ==> table[i].value.path == table[i].key)
    decreases |files|
  {
    hide PassesOf;
    if files == [] {
    } else {
      var init, last := files[..|files| - 1], files[|files| - 1];
      TableKeys(root, init, plans, category);
      TableFresh(root, init, plans, category, last.path);
      PassesBelong(root, last, plans, category);
    }
  }

  /**
   The result depends on the set of files alone, not on the order in which the walk yields them.
  */
  lemma {:induction false} WalkOrderIrrelevant(root: string, a: seq<File>, b: seq<File>, plans: seq<Plan>, category: Category, maxFiles: int, minFiles: int)
    requires DistinctPaths(a) && DistinctPaths(b)
    requires forall f :: f in a <==> f in b
    ensures Found(root, a, plans, category, maxFiles, minFiles) == Found(root, b, plans, category, maxFiles, minFiles)
  {
    hide PassesOf, Combined, Sorted, Ranked, Table;
    var va, vb := Values(Table(root, a, plans, category)), Values(Table(root, b, plans, category));
    TableValues(root, a, plans, category);
    TableValues(root, b, plans, category);
    SortedRanked(va);
    SortedRanked(vb);
    SameCandidates(root, a, b, plans, category);
    SameCandidates(root, b, a, plans, category);
    RankedUnique(Sorted(va), Sorted(vb));
  }

  lemma {:induction false} SameCandidates(root: string, a: seq<File>, b: seq<File>, plans: seq<Plan>, category: Category)
    requires forall f :: f in a ==> f in b
    ensures forall c :: CandidateOf(root, a, plans, category, c) ==> CandidateOf(root, b, plans, category, c)
  {
    hide PassesOf, Combined;
    forall c | CandidateOf(root, a, plans, category, c)
      ensures CandidateOf(root, b, plans, category, c)
    {
      var i :| 0 <= i < |a| && PassesOf(root, a[i], plans, category) != [] && c == Combined(PassesOf(root, a[i], plans, category));
      assert a[i] in b;
      var j :| 0 <= j < |b| && b[j] == a[i];
    }
  }

  /**
   The result is the top of the ranking: ranked itself, made of candidates of the files, as many as configured or all
   there are, and every candidate left out ranks after every one returned.
  */
  lemma {:induction false} FoundIsTop(root: string, files: seq<File>, plans: seq<Plan>, category: Category, maxFiles: int, minFiles: int)
    requires DistinctPaths(files) && Max(maxFiles, minFiles) >= 0
    ensures var r := Found(root, files, plans, category, maxFiles, minFiles);
            && Ranked(r) && |r| <= Max(maxFiles, minFiles)
            && (forall c :: c in r ==> CandidateOf(root, files, plans, category, c))
            && (forall c :: CandidateOf(root, files, plans, category, c) && c !in r ==>
                  |r| == Max(maxFiles, minFiles) && forall x :: x in r ==> Before(x, c))
  {
    hide PassesOf, Combined, Sorted, Table, Before, CandidateOf;
    var values := Values(Table(root, files, plans, category));
    var sorted, k := Sorted(values), Max(maxFiles, minFiles);
    TableValues(root, files, plans, category);
    SortedRanked(values);
    var r := Slice(sorted, k);
    forall c | CandidateOf(root, files, plans, category, c) && c !in r
      ensures |r| == k && forall x :: x in r ==> Before(x, c)
    {
      assert c in sorted;
      var i :| 0 <= i < |sorted| && sorted[i] == c;
      assert i >= |r|;
    }
  }
}
