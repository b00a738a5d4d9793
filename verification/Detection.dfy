/** Which issues are queued and what is executed of them, from the listing to every later run. */
module Detection {
  import opened Results
  import opened Text
  import opened Issues
  import opened QueueSpec
  import opened Lifecycle
  import opened Conservation
  import opened Outcomes

  /** An issue that may be worked on: open in any spelling, and no pull request. */
  predicate Workable(gi: GitHubIssue) {
    Lower(gi.state) == "open" && !gi.pullRequest
  }

  /** The parts of an item that say which issue it is about and what the issue says. */
  predicate About(item: WorkerIssue, repository: Repository, gi: GitHubIssue) {
    && item.repository == repository.owner + "/" + repository.name && item.number == gi.number
    && item.title == Some(gi.title) && item.url == Some(gi.htmlUrl) && item.labels == gi.labels
    && item.metadata.Keys == {"body", "comments", "author"}
    && item.metadata["body"] == JString(if gi.body.Some? then gi.body.value else "")
    && item.metadata["comments"] == JInt(gi.comments)
    && item.metadata["author"] == JString(if gi.userLogin.Some? then gi.userLogin.value else "")
  }

  /** An item as it is when first queued. */
  predicate NewlyAbout(item: WorkerIssue, repository: Repository, gi: GitHubIssue) {
    About(item, repository, gi) && item.attempts == 0 && item.enqueuedAt == gi.seenAt
  }

  function KeyOf(repository: Repository, gi: GitHubIssue): string {
    repository.owner + "/" + repository.name + "#" + IntToString(gi.number)
  }

  /** The k-th issue of the r-th listing, reached before any listing raises. */
  predicate Reaches(responses: seq<Response>, r: nat, k: nat) {
    r < |responses| && (forall q :: 0 <= q <= r ==> responses[q].Listed?) && k < |responses[r].issues|
  }

  // ----- one listing -----

  lemma {:induction false} ItemAbout(repository: Repository, gi: GitHubIssue)
    ensures var item := ToWorkerIssue(repository, gi); NewlyAbout(item, repository, gi) && item.Key() == KeyOf(repository, gi)
    ensures Ignored(gi) <==> !Workable(gi)
  {
  }

  /** An item stands for one of the workable issues of a listing. */
  ghost predicate FromListing(item: WorkerIssue, repository: Repository, issues: seq<GitHubIssue>) {
    exists k :: 0 <= k < |issues| && Workable(issues[k]) && NewlyAbout(item, repository, issues[k])
  }

  lemma {:induction false} FromLonger(item: WorkerIssue, repository: Repository, issues: seq<GitHubIssue>)
    requires issues != [] && FromListing(item, repository, issues[1..])
    ensures FromListing(item, repository, issues)
  {
    hide NewlyAbout, Workable;
    var k :| 0 <= k < |issues[1..]| && Workable(issues[1..][k]) && NewlyAbout(item, repository, issues[1..][k]);
    assert issues[k + 1] == issues[1..][k];
  }

  lemma {:induction false} UnseenItems(st: State, repository: Repository, issues: seq<GitHubIssue>)
    ensures forall item :: item in Unseen(st, repository, issues) ==> FromListing(item, repository, issues)
    ensures forall k :: 0 <= k < |issues| && Workable(issues[k]) ==>
              KeyOf(repository, issues[k]) in Known(st) + Keys(Unseen(st, repository, issues))
    decreases |issues|
  {
    hide WorkerIssue.Key, ToWorkerIssue, Ignored, Workable, NewlyAbout, KeyOf, Known, Keys, FromListing, Skips;
    if issues != [] {
      var item, later := ToWorkerIssue(repository, issues[0]), issues[1..];
      ItemAbout(repository, issues[0]);
      UnskippedUnknown(st, item.Key());
      var all := Unseen(st, repository, issues);
      if Ignored(issues[0]) || Skips(st, item.Key()) {
        UnseenItems(st, repository, later);
        forall x | x in all
          ensures FromListing(x, repository, issues)
        {
          FromLonger(x, repository, issues);
        }
      } else {
        var queued := Queued(st, [item]);
        var rest := Unseen(queued, repository, later);
        UnseenItems(queued, repository, later);
        KnownAfter(st, item);
        KeysConcat([item], rest);
        KeysOfOne(item);
        HeadListed(item, repository, issues);
        forall x | x in all
          ensures FromListing(x, repository, issues)
        {
          if x != item {
            FromLonger(x, repository, issues);
          }
        }
      }
      assert forall k :: 0 < k < |issues| ==> issues[k] == later[k - 1];
    }
  }

  lemma {:induction false} HeadListed(item: WorkerIssue, repository: Repository, issues: seq<GitHubIssue>)
    requires issues != [] && Workable(issues[0]) && NewlyAbout(item, repository, issues[0])
    ensures FromListing(item, repository, issues)
  {
    hide NewlyAbout, Workable;
  }

  lemma {:induction false} KnownAfter(st: State, item: WorkerIssue)
    ensures Known(Queued(st, [item])) == Known(st) + {item.Key()}
  {
    hide WorkerIssue.Key, Keys;
    KeysConcat(st.queue, [item]);
    KeysOfOne(item);
  }

  lemma {:induction false} KnownAfterAll(st: State, added: Items)
    ensures Known(Queued(st, added)) == Known(st) + Keys(added)
  {
    hide WorkerIssue.Key, Keys;
    KeysConcat(st.queue, added);
  }

  // ----- a whole poll -----

  /** An item stands for a workable issue of some listing of the poll. */
  ghost predicate FromPoll(item: WorkerIssue, repositories: seq<Repository>, responses: seq<Response>)
    requires |repositories| == |responses|
  {
    exists r: nat, k: nat :: Reaches(responses, r, k) && Workable(responses[r].issues[k])
                             && NewlyAbout(item, repositories[r], responses[r].issues[k])
  }

  lemma {:induction false} FromLater(item: WorkerIssue, repositories: seq<Repository>, responses: seq<Response>)
    requires |repositories| == |responses| && responses != [] && responses[0].Listed?
    requires FromPoll(item, repositories[1..], responses[1..])
    ensures FromPoll(item, repositories, responses)
  {
    hide NewlyAbout, Workable;
    var r: nat, k: nat :| Reaches(responses[1..], r, k) && Workable(responses[1..][r].issues[k])
                          && NewlyAbout(item, repositories[1..][r], responses[1..][r].issues[k]);
    LaterReaches(responses, r, k);
    assert responses[r + 1] == responses[1..][r] && repositories[r + 1] == repositories[1..][r];
  }

  lemma {:induction false} LaterReaches(responses: seq<Response>, r: nat, k: nat)
    requires responses != [] && responses[0].Listed?
    ensures Reaches(responses[1..], r, k) <==> Reaches(responses, r + 1, k)
  {
    var later := responses[1..];
    assert forall q :: 0 <= q < |later| ==> later[q] == responses[q + 1];
    if Reaches(responses, r + 1, k) {
      forall q | 0 <= q <= r
        ensures later[q].Listed?
      {
        assert responses[q + 1].Listed?;
      }
    }
  }

  lemma {:induction false} FromFirst(item: WorkerIssue, repositories: seq<Repository>, responses: seq<Response>)
    requires |repositories| == |responses| && responses != [] && responses[0].Listed?
    requires FromListing(item, repositories[0], responses[0].issues)
    ensures FromPoll(item, repositories, responses)
  {
    hide NewlyAbout, Workable;
    var k :| 0 <= k < |responses[0].issues| && Workable(responses[0].issues[k]) && NewlyAbout(item, repositories[0], responses[0].issues[k]);
    assert Reaches(responses, 0, k);
  }

  lemma {:induction false} PollItems(st: State, repositories: seq<Repository>, responses: seq<Response>)
    requires |repositories| == |responses|
    ensures forall item :: item in Poll(st, repositories, responses).added ==> FromPoll(item, repositories, responses)
    ensures forall r: nat, k: nat :: Reaches(responses, r, k) && Workable(responses[r].issues[k]) ==>
              KeyOf(repositories[r], responses[r].issues[k]) in Known(st) + Keys(Poll(st, repositories, responses).added)
    decreases |responses|
  {
    hide WorkerIssue.Key, Workable, KeyOf, Known, Keys, FromPoll, FromListing, Unseen;
    if responses == [] || responses[0].Raises? {
      assert forall r: nat, k: nat :: !Reaches(responses, r, k);
    } else {
      var added := Unseen(st, repositories[0], responses[0].issues);
      var polled := Queued(st, added);
      var rest := Poll(polled, repositories[1..], responses[1..]).added;
      UnseenItems(st, repositories[0], responses[0].issues);
      PollItems(polled, repositories[1..], responses[1..]);
      KnownAfterAll(st, added);
      KeysConcat(added, rest);
      forall item | item in added + rest
        ensures FromPoll(item, repositories, responses)
      {
        if item in added {
          FromFirst(item, repositories, responses);
        } else {
          FromLater(item, repositories, responses);
        }
      }
      forall r: nat, k: nat | Reaches(responses, r, k) && Workable(responses[r].issues[k])
        ensures KeyOf(repositories[r], responses[r].issues[k]) in Known(st) + Keys(added + rest)
      {
        if r > 0 {
          LaterReaches(responses, r - 1, k);
          assert responses[r] == responses[1..][r - 1] && repositories[r] == repositories[1..][r - 1];
        }
      }
    }
  }

  /**
   Exactly which issues a poll queues: a key is added if and only if it was unknown and some listing that was reached
   names an issue of it that is open and no pull request; and every item added says what such an issue says.
  */
  lemma {:induction false} PollQueuesWorkable(st: State, repositories: seq<Repository>, responses: seq<Response>, key: string)
    requires Separate(st) && |repositories| == |responses|
    ensures var added := Poll(st, repositories, responses).added;
            && (forall item :: item in added ==> FromPoll(item, repositories, responses))
            && (key in Keys(added)
                <==> key !in Known(st) && exists r: nat, k: nat ::
                       Reaches(responses, r, k) && Workable(responses[r].issues[k]) && KeyOf(repositories[r], responses[r].issues[k]) == key)
  {
    hide Workable, Known, Poll, FromPoll, Separate;
    PollItems(st, repositories, responses);
    PollSeparate(st, repositories, responses);
    var added := Poll(st, repositories, responses).added;
    if key in Keys(added) {
      var j :| 0 <= j < |added| && added[j].Key() == key;
      assert added[j] in added;
      var r, k := ListingOf(added[j], repositories, responses);
    }
  }

  lemma {:induction false} ListingOf(item: WorkerIssue, repositories: seq<Repository>, responses: seq<Response>) returns (r: nat, k: nat)
    requires |repositories| == |responses| && FromPoll(item, repositories, responses)
    ensures Reaches(responses, r, k) && Workable(responses[r].issues[k]) && NewlyAbout(item, repositories[r], responses[r].issues[k])
    ensures KeyOf(repositories[r], responses[r].issues[k]) == item.Key()
  {
    hide Workable;
    r, k :| Reaches(responses, r, k) && Workable(responses[r].issues[k]) && NewlyAbout(item, repositories[r], responses[r].issues[k]);
  }

  // ----- what is executed -----

  /** The same issue, perhaps at a later attempt. */
  predicate SameIssue(item: WorkerIssue, origin: WorkerIssue) {
    && item.repository == origin.repository && item.number == origin.number
    && item.title == origin.title && item.url == origin.url && item.labels == origin.labels && item.metadata == origin.metadata
    && item.attempts >= origin.attempts
    && (item.attempts == origin.attempts ==> item == origin)
  }

  ghost predicate AllFrom(items: Items, origins: Items) {
    forall item :: item in items ==> exists origin :: origin in origins && SameIssue(item, origin)
  }

  lemma {:induction false} AllFromTwice(items: Items, between: Items, origins: Items)
    requires AllFrom(items, between) && AllFrom(between, origins)
    ensures AllFrom(items, origins)
  {
    forall item | item in items
      ensures exists origin :: origin in origins && SameIssue(item, origin)
    {
      var b :| b in between && SameIssue(item, b);
      var origin :| origin in origins && SameIssue(b, origin);
      assert SameIssue(item, origin);
    }
  }

  lemma {:induction false} AllFromMore(items: Items, origins: Items, more: Items)
    requires AllFrom(items, origins) && forall x :: x in origins ==> x in more
    ensures AllFrom(items, more)
  {
    hide SameIssue;
  }

  lemma {:induction false} AllFromBoth(a: Items, b: Items, origins: Items)
    requires AllFrom(a, origins) && AllFrom(b, origins)
    ensures AllFrom(a + b, origins)
  {
    hide SameIssue;
  }

  lemma {:induction false} AllFromThemselves(items: Items, origins: Items)
    requires forall x :: x in items ==> x in origins
    ensures AllFrom(items, origins)
  {
    forall item | item in items
      ensures exists origin :: origin in origins && SameIssue(item, origin)
    {
      assert SameIssue(item, item);
    }
  }

  /** A retry changes the attempts and the time, nothing else. */
  lemma {:induction false} RetriedSame(issue: WorkerIssue, now: Timestamp)
    ensures SameIssue(Retried(issue, now), issue)
  {
  }

  lemma {:induction false} StepFrom(st: State, repositories: seq<Repository>, maxRetries: int, e: Event)
    requires Separate(st) && (e.Tick? ==> |e.responses| == |repositories|)
    ensures var effect := Step(st, repositories, maxRetries, e);
            AllFrom(effect.executed, st.queue + effect.added) && AllFrom(effect.next.queue, st.queue + effect.added)
  {
    hide SameIssue, Separate, Known, Keys, Poll, WorkerIssue.Key, Step;
    var effect := Step(st, repositories, maxRetries, e);
    var waiting := st.queue + effect.added;
    if effect.executed == [] {
      NothingExecuted(st, repositories, maxRetries, e);
      AllFromThemselves(waiting, waiting);
    } else {
      var i, rest := OutcomeDecides(st, repositories, maxRetries, e);
      var item := effect.executed[0];
      var _, _ := Executes(st, repositories, maxRetries, e);
      AllFromThemselves([item], waiting);
      AllFromThemselves(rest, waiting);
      var again := Retried(item, e.now);
      RetriedSame(item, e.now);
      assert AllFrom([again], waiting);
      AllFromBoth(rest, [again], waiting);
      assert rest + [] == rest;
    }
  }

  /** In every run, whatever is executed or still queued at its end was queued at first or detected by it, but for attempts and time. */
  lemma {:induction false} RunFrom(st: State, repositories: seq<Repository>, maxRetries: int, es: seq<Event>)
    requires Separate(st) && EventsFit(repositories, es)
    ensures var trace := Run(st, repositories, maxRetries, es);
            AllFrom(trace.executed, st.queue + trace.added) && AllFrom(trace.final.queue, st.queue + trace.added)
    decreases |es|
  {
    hide Separate, Step, AllFrom;
    if es == [] {
      AllFromThemselves([], st.queue + []);
      AllFromThemselves(st.queue, st.queue + []);
    } else {
      var first := Step(st, repositories, maxRetries, es[0]);
      var rest := Run(first.next, repositories, maxRetries, es[1..]);
      var waiting, origins := st.queue + first.added, st.queue + (first.added + rest.added);
      StepConserves(st, repositories, maxRetries, es[0]);
      StepFrom(st, repositories, maxRetries, es[0]);
      RunFrom(first.next, repositories, maxRetries, es[1..]);
      AllFromMore(first.executed, waiting, origins);
      AllFromMore(first.next.queue, waiting, origins);
      AllFromThemselves(rest.added, origins);
      AllFromBoth(first.next.queue, rest.added, origins);
      AllFromTwice(rest.executed, first.next.queue + rest.added, origins);
      AllFromTwice(rest.final.queue, first.next.queue + rest.added, origins);
      AllFromBoth(first.executed, rest.executed, origins);
    }
  }

  /** A tick of the run listed this issue, open and no pull request, and polling reached it. */
  ghost predicate ListedIn(item: WorkerIssue, repositories: seq<Repository>, es: seq<Event>)
    requires EventsFit(repositories, es)
  {
    exists t :: 0 <= t < |es| && es[t].Tick? && !es[t].paused && FromPoll(item, repositories, es[t].responses)
  }

  lemma {:induction false} AddedListed(st: State, repositories: seq<Repository>, maxRetries: int, es: seq<Event>)
    requires EventsFit(repositories, es)
    ensures forall item :: item in Run(st, repositories, maxRetries, es).added ==> ListedIn(item, repositories, es)
    decreases |es|
  {
    hide FromPoll, Poll, Execute;
    if es != [] {
      var e, later := es[0], es[1..];
      var first := Step(st, repositories, maxRetries, e);
      AddedListed(first.next, repositories, maxRetries, later);
      if e.Tick? && !e.paused {
        PollItems(st, repositories, e.responses);
      }
      forall item | item in Run(st, repositories, maxRetries, es).added
        ensures ListedIn(item, repositories, es)
      {
        if item in first.added {
          assert FromPoll(item, repositories, es[0].responses);
        } else {
          assert ListedIn(item, repositories, later);
          var t :| 0 <= t < |later| && later[t].Tick? && !later[t].paused && FromPoll(item, repositories, later[t].responses);
          assert es[t + 1] == later[t];
        }
      }
    }
  }

  /**
   From an empty queue: every execution of every run is of an issue that some tick's listing gave, open and no pull
   request, and hands on exactly that issue's title, address, labels, body, comments and author, at any attempt.
  */
  lemma {:induction false} ExecutesListedIssues(st: State, repositories: seq<Repository>, maxRetries: int, es: seq<Event>, item: WorkerIssue)
    requires Separate(st) && st.queue == [] && EventsFit(repositories, es)
    requires item in Run(st, repositories, maxRetries, es).executed
    ensures exists t, r: nat, k: nat ::
              && 0 <= t < |es| && es[t].Tick? && !es[t].paused && Reaches(es[t].responses, r, k)
              && Workable(es[t].responses[r].issues[k]) && About(item, repositories[r], es[t].responses[r].issues[k])
  {
    hide Separate, Run, Workable, WorkerIssue.Key;
    RunFrom(st, repositories, maxRetries, es);
    AddedListed(st, repositories, maxRetries, es);
    var added := Run(st, repositories, maxRetries, es).added;
    assert [] + added == added;
    var origin :| origin in added && SameIssue(item, origin);
    var t :| 0 <= t < |es| && es[t].Tick? && !es[t].paused && FromPoll(origin, repositories, es[t].responses);
    var r, k := ListingOf(origin, repositories, es[t].responses);
    assert About(item, repositories[r], es[t].responses[r].issues[k]);
  }
}
