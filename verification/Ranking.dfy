/** The order in which candidates are ranked. */
module Ranking {
  import opened Scoring

  /** Python's order on strings: by code points, a prefix first. */
  predicate Less(a: string, b: string) {
    b != "" && (a == "" || a[0] < b[0] || (a[0] == b[0] && Less(a[1..], b[1..])))
  }

  lemma {:induction false} LessTotal(a: string, b: string)
    ensures a == b || Less(a, b) || Less(b, a)
    ensures !(Less(a, b) && Less(b, a)) && !Less(a, a)
  {
    if a != "" && b != "" && a[0] == b[0] {
      LessTotal(a[1..], b[1..]);
      assert a == [a[0]] + a[1..] && b == [b[0]] + b[1..];
    }
    if a != "" {
      LessTotal(a[1..], a[1..]);
    }
  }

  lemma {:induction false} LessTransitive(a: string, b: string, c: string)
    requires Less(a, b) && Less(b, c)
    ensures Less(a, c)
  {
    if a != "" && a[0] == b[0] == c[0] {
      LessTransitive(a[1..], b[1..], c[1..]);
    }
  }

  /** The number of parts of a path below the repository. */
  function Depth(path: string): nat {
    if path == "" then 1 else (if path[0] == '/' then 1 else 0) + Depth(path[1..])
  }

  /** Compared by falling score, then depth, then path. */
  predicate Before(a: Candidate, b: Candidate) {
    || a.score > b.score
    || (a.score == b.score
        && (Depth(a.path) < Depth(b.path) || (Depth(a.path) == Depth(b.path) && Less(a.path, b.path))))
  }

  lemma {:induction false} BeforeTotal(a: Candidate, b: Candidate)
    ensures a.path == b.path || Before(a, b) || Before(b, a)
    ensures !(Before(a, b) && Before(b, a)) && !Before(a, a)
  {
    hide Less, Depth;
    LessTotal(a.path, b.path);
    LessTotal(a.path, a.path);
  }

  lemma {:induction false} BeforeTransitive(a: Candidate, b: Candidate, c: Candidate)
    requires Before(a, b) && Before(b, c)
    ensures Before(a, c)
  {
    hide Less, Depth;
    if Less(a.path, b.path) && Less(b.path, c.path) {
      LessTransitive(a.path, b.path, c.path);
    }
  }

  ghost predicate Ranked(cs: seq<Candidate>) {
    forall i, j :: 0 <= i < j < |cs| ==> Before(cs[i], cs[j])
  }

  /** The first k characters are the same, and then one text ends or has the smaller character. */
  predicate FirstDifference(a: string, b: string, k: nat) {
    k <= |a| && k < |b| && a[..k] == b[..k] && (k == |a| || a[k] < b[k])
  }

  /** Texts are ordered by their first difference, a prefix before what continues it. */
  lemma {:induction false} LessExactly(a: string, b: string)
    ensures Less(a, b) <==> exists k: nat :: FirstDifference(a, b, k)
  {
    if a != "" && b != "" && a[0] == b[0] {
      LessExactly(a[1..], b[1..]);
      forall k: nat
        ensures FirstDifference(a[1..], b[1..], k) <==> FirstDifference(a, b, k + 1)
      {
        LaterDifference(a, b, k);
      }
      assert !FirstDifference(a, b, 0);
      if k: nat :| FirstDifference(a, b, k) {
        assert FirstDifference(a[1..], b[1..], k - 1);
      }
    } else if Less(a, b) {
      assert FirstDifference(a, b, 0);
    }
  }

  lemma {:induction false} LaterDifference(a: string, b: string, k: nat)
    requires a != "" && b != "" && a[0] == b[0]
    ensures FirstDifference(a[1..], b[1..], k) <==> FirstDifference(a, b, k + 1)
  {
    if k < |a| && k + 1 < |b| {
      assert a[..k + 1] == [a[0]] + a[1..][..k] && b[..k + 1] == [b[0]] + b[1..][..k];
    }
  }

  /** In a ranking scores never rise; among equal scores depths never fall, and among equal depths the paths are in order. */
  lemma {:induction false} RankedInOrder(cs: seq<Candidate>, i: nat, j: nat)
    requires Ranked(cs) && i < j < |cs|
    ensures cs[i].score >= cs[j].score
    ensures cs[i].score == cs[j].score ==> Depth(cs[i].path) <= Depth(cs[j].path)
    ensures cs[i].score == cs[j].score && Depth(cs[i].path) == Depth(cs[j].path) ==>
              exists k: nat :: FirstDifference(cs[i].path, cs[j].path, k)
  {
    hide Less, Depth, FirstDifference;
    LessExactly(cs[i].path, cs[j].path);
  }

  predicate DistinctCandidates(cs: seq<Candidate>) {
    forall i, j :: 0 <= i < j < |cs| ==> cs[i].path != cs[j].path
  }

  function Insert(c: Candidate, cs: seq<Candidate>): (r: seq<Candidate>)
    ensures |r| == |cs| + 1
    ensures forall x :: x in r <==> x == c || x in cs
  {
    if cs != [] && Before(cs[0], c) then [cs[0]] + Insert(c, cs[1..])
    else
      assert cs == [] || cs == [cs[0]] + cs[1..];
      [c] + cs
  }

  /** sorted() */
  function Sorted(cs: seq<Candidate>): (r: seq<Candidate>)
    ensures |r| == |cs|
    ensures forall x :: x in r <==> x in cs
  {
    if cs == [] then [] else
      assert cs == [cs[0]] + cs[1..];
      Insert(cs[0], Sorted(cs[1..]))
  }

  lemma {:induction false} InsertRanked(c: Candidate, cs: seq<Candidate>)
    requires Ranked(cs) && forall x :: x in cs ==> x.path != c.path
    ensures Ranked(Insert(c, cs))
  {
    hide Before;
    if cs != [] && Before(cs[0], c) {
      InsertRanked(c, cs[1..]);
      var rest := Insert(c, cs[1..]);
      forall i | 0 <= i < |rest|
        ensures Before(cs[0], rest[i])
      {
        assert rest[i] in rest;
      }
    } else if cs != [] {
      BeforeTotal(c, cs[0]);
      assert cs[0] in cs;
      forall i | 0 < i < |cs|
        ensures Before(c, cs[i])
      {
        BeforeTransitive(c, cs[0], cs[i]);
      }
    }
  }

  lemma {:induction false} SortedRanked(cs: seq<Candidate>)
    requires DistinctCandidates(cs)
    ensures Ranked(Sorted(cs))
  {
    hide Before, Insert;
    if cs == [] {
    } else {
      SortedRanked(cs[1..]);
      InsertRanked(cs[0], Sorted(cs[1..]));
    }
  }

  /** The ranking of a set of candidates is unique. */
  lemma {:induction false} RankedUnique(a: seq<Candidate>, b: seq<Candidate>)
    requires Ranked(a) && Ranked(b)
    requires forall x :: x in a <==> x in b
    ensures a == b
    decreases |a|
  {
    hide Before;
    if a == [] {
      HasFirst(b);
    } else {
      assert a[0] in b && b != [];
      assert b[0] in a;
      HeadsAgree(a, b);
      forall x
        ensures x in a[1..] <==> x in b[1..]
      {
        TailElement(a, x);
        TailElement(b, x);
      }
      RankedUnique(a[1..], b[1..]);
      assert a == [a[0]] + a[1..] && b == [b[0]] + b[1..];
    }
  }

  lemma {:induction false} HasFirst(cs: seq<Candidate>)
    ensures cs != [] ==> cs[0] in cs
  {
  }

  lemma {:induction false} HeadsAgree(a: seq<Candidate>, b: seq<Candidate>)
    requires Ranked(a) && Ranked(b) && a != [] && b != []
    requires a[0] in b && b[0] in a
    ensures a[0] == b[0]
  {
    hide Before;
    BeforeTotal(a[0], b[0]);
  }

  lemma {:induction false} TailElement(a: seq<Candidate>, x: Candidate)
    requires Ranked(a) && a != []
    ensures x in a[1..] <==> x in a && x != a[0]
  {
    hide Before;
    BeforeTotal(a[0], a[0]);
    if x in a && x != a[0] {
      var i :| 0 <= i < |a| && a[i] == x;
      assert a[1..][i - 1] == x;
    }
  }
}
