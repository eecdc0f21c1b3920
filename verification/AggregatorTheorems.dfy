/**
  What a reader of the finished index may rely on, over all interleavings.
 */
module AggregatorTheorems {
  import opened Bytes
  import opened Text
  import opened Totals
  import opened Aggregator
  import opened AggregatorInvariant

  ghost predicate Inv(s: State, w: World, feedList: seq<Item>) {
    Limited(s, w) && SemaphoresMade(s, w) && SeenOk(s) && ArticlesOk(s, w) && IndexOk(s, w) && FeedsOk(s, w, feedList)
  }

  // Whoever waits for a semaphore waits for one that exists.
  predicate SemaphoresMade(s: State, w: World) {
    && (forall k :: 0 <= k < |s.feeds| && s.feeds[k].pc.FeedAcquire? ==> w.host(s.feeds[k].item.link) in s.limits)
    && (forall k :: 0 <= k < |s.tasks| && s.tasks[k].pc.Acquire? ==> w.host(s.tasks[k].item.link) in s.limits)
  }

  lemma MainStepRest(s: State, w: World, feedList: seq<Item>, e: Event)
    requires Inv(s, w, feedList) && Enabled(s, w, feedList, e) && !e.FeedStep? && !e.TaskStep?
    ensures var t := Apply(s, w, feedList, e); SeenOk(t) && ArticlesOk(t, w) && IndexOk(t, w)
  {
    hide Limited, FeedsOk, Words, Entry, Tight, Count;
    var t := Apply(s, w, feedList, e);
    assert t.tasks == s.tasks && t.seen == s.seen && t.articles == s.articles && t.index == s.index;
    assert forall l :: Owned(s, l) ==> Owned(t, l);
    assert forall i :: Written(s, i) ==> Written(t, i);
    assert forall i :: InIndex(s, i) <==> InIndex(t, i);
  }

  /** Every step of every task keeps the invariant. */
  lemma StepKept(s: State, w: World, feedList: seq<Item>, e: Event)
    requires Inv(s, w, feedList) && Enabled(s, w, feedList, e)
    ensures Inv(Apply(s, w, feedList, e), w, feedList)
  {
    hide Limited, SemaphoresMade, SeenOk, ArticlesOk, IndexOk, FeedsOk, StepFeed, StepTask;
    MadeKept(s, w, feedList, e);
    match e
    case FeedStep(k) =>
      FeedStepLimited(s, w, feedList, k);
      FeedStepSeen(s, w, k);
      FeedStepArticles(s, w, k);
      FeedStepIndex(s, w, k);
      FeedStepFeeds(s, w, feedList, k);
    case TaskStep(k) =>
      TaskStepLimited(s, w, feedList, k);
      TaskStepSeen(s, w, feedList, k);
      TaskStepArticles(s, w, feedList, k);
      TaskStepIndex(s, w, feedList, k);
      TaskStepFeeds(s, w, feedList, k);
    case _ =>
      MainStepLimited(s, w, feedList, e);
      MainStepRest(s, w, feedList, e);
      MainStepFeeds(s, w, feedList, e);
  }

  predicate Run(s: State, w: World, feedList: seq<Item>, events: seq<Event>)
    decreases |events|
  {
    events == [] ||
    (Enabled(s, w, feedList, events[0]) && Run(Apply(s, w, feedList, events[0]), w, feedList, events[1..]))
  }

  function After(s: State, w: World, feedList: seq<Item>, events: seq<Event>): State
    requires Run(s, w, feedList, events)
    decreases |events|
  {
    if events == [] then s else After(Apply(s, w, feedList, events[0]), w, feedList, events[1..])
  }

  lemma {:induction false} RunKeeps(s: State, w: World, feedList: seq<Item>, events: seq<Event>)
    requires Inv(s, w, feedList) && Run(s, w, feedList, events)
    ensures Inv(After(s, w, feedList, events), w, feedList)
    decreases |events|
  {
    hide Inv, Apply, Enabled;
    if events != [] {
      StepKept(s, w, feedList, events[0]);
      RunKeeps(Apply(s, w, feedList, events[0]), w, feedList, events[1..]);
    }
  }

  lemma InitKept(w: World, feedList: seq<Item>)
    ensures Inv(Init(feedList), w, feedList)
  {
  }

  // A feed or article task between the semaphore's wait and its signal, downloading from h.
  function FeedDownload(w: World, h: Str): Feed -> int {
    (f: Feed) => if f.pc == FeedFetch && w.host(f.item.link) == h then 1 else 0
  }

  function Download(w: World, h: Str): Task -> int {
    (t: Task) => if t.pc == Fetch && w.host(t.item.link) == h then 1 else 0
  }

  /** At no moment are more than eight downloads from one host in progress. */
  lemma AtMostEight(w: World, feedList: seq<Item>, events: seq<Event>, h: Str)
    requires Run(Init(feedList), w, feedList, events)
    ensures var s := After(Init(feedList), w, feedList, events);
      Total(s.feeds, FeedDownload(w, h)) + Total(s.tasks, Download(w, h)) <= 8
  {
    hide Enabled, Apply, Run, After, Total, SeenOk, ArticlesOk, IndexOk, FeedsOk;
    InitKept(w, feedList);
    RunKeeps(Init(feedList), w, feedList, events);
    var s := After(Init(feedList), w, feedList, events);
    assert HostOk(s, w, h);
    DownloadsUse(s, w, h);
  }

  lemma DownloadsUse(s: State, w: World, h: Str)
    ensures Total(s.feeds, FeedDownload(w, h)) + Total(s.tasks, Download(w, h)) <= InUse(s, w, h)
  {
    hide Total;
    forall f | f in s.feeds ensures FeedDownload(w, h)(f) <= FeedUse(w, h)(f) {
      var host := w.host(f.item.link);
      assert FeedDownload(w, h)(f) == if f.pc == FeedFetch && host == h then 1 else 0;
      assert FeedUse(w, h)(f) == if FeedHolds(f.pc) && host == h then 1 else 0;
    }
    forall t | t in s.tasks ensures Download(w, h)(t) <= TaskUse(w, h)(t) {
      var host := w.host(t.item.link);
      assert Download(w, h)(t) == if t.pc == Fetch && host == h then 1 else 0;
      assert TaskUse(w, h)(t) == if Holds(t.pc) && host == h then 1 else 0;
    }
    TotalAtMost(s.feeds, FeedDownload(w, h), FeedUse(w, h));
    TotalAtMost(s.tasks, Download(w, h), TaskUse(w, h));
  }

  /** When the crawl is over every host has its eight slots back. */
  lemma SlotsReturned(w: World, feedList: seq<Item>, events: seq<Event>, h: Str)
    requires Run(Init(feedList), w, feedList, events) && After(Init(feedList), w, feedList, events).main.Finished?
    ensures var s := After(Init(feedList), w, feedList, events); h in s.limits ==> s.limits[h] == 8
  {
    hide Enabled, Apply, Run, After, Total, SeenOk, ArticlesOk, IndexOk;
    InitKept(w, feedList);
    RunKeeps(Init(feedList), w, feedList, events);
    var s := After(Init(feedList), w, feedList, events);
    assert HostOk(s, w, h);
    forall f | f in s.feeds ensures FeedUse(w, h)(f) == 0 {
      var host := w.host(f.item.link);
      assert f.pc.FeedDone?;
    }
    forall t | t in s.tasks ensures TaskUse(w, h)(t) == 0 {
      var host := w.host(t.item.link);
      assert Ended(t.pc);
    }
    TotalConstant(s.feeds, FeedUse(w, h), 0);
    TotalConstant(s.tasks, TaskUse(w, h), 0);
  }

  // ------------------------------------------------------------ the finished index

  // l is the link of an item of a feed on the list that could be fetched.
  predicate Reachable(w: World, feedList: seq<Item>, item: Item) {
    exists i :: 0 <= i < |feedList| && Lists(w.feedItems(feedList[i].link), item)
  }

  // The text could be fetched and has words.
  predicate HasText(tokens: Option<seq<Str>>) {
    tokens.Some? && tokens.value != []
  }

  predicate Lists(items: Option<seq<Item>>, item: Item) {
    items.Some? && item in items.value
  }

  lemma ListedIs(w: World, feed: Item, item: Item)
    ensures item in Listed(w, feed) <==> Lists(w.feedItems(feed.link), item)
  {
  }

  lemma FinishedSchedules(s: State, w: World, feedList: seq<Item>, item: Item)
    requires FeedsOk(s, w, feedList) && s.main.Finished?
    ensures HasTask(s, item) <==> Reachable(w, feedList, item)
  {
    hide Listed, Lists;
    if Reachable(w, feedList, item) {
      var i :| 0 <= i < |feedList| && Lists(w.feedItems(feedList[i].link), item);
      ListedIs(w, feedList[i], item);
      var j :| 0 <= j < |Listed(w, feedList[i])| && Listed(w, feedList[i])[j] == item;
      assert s.feeds[i].pc.FeedDone? && Handed(w, s.feeds[i]) == |Listed(w, s.feeds[i].item)|;
      assert HasTask(s, Listed(w, s.feeds[i].item)[j]);
    }
    if HasTask(s, item) {
      var k :| 0 <= k < |s.tasks| && s.tasks[k].item == item;
      assert Wanted(s, w, s.tasks[k].item);
      var i :| 0 <= i < |s.feeds| && item in Listed(w, s.feeds[i].item);
      ListedIs(w, feedList[i], item);
    }
  }

  // Every owner of a link with words has its article, once all tasks have ended.
  lemma FinishedOwner(s: State, w: World, l: Str)
    requires SeenOk(s) && ArticlesOk(s, w) && l in s.seen && Words(w, l) != []
    requires forall k :: 0 <= k < |s.tasks| ==> Ended(s.tasks[k].pc)
    ensures exists i :: 0 <= i < |s.articles| && s.articles[i].link == l
  {
    hide Words, Written;
    assert Owned(s, l);
    var k :| 0 <= k < |s.tasks| && Owns(s.tasks[k].pc) && s.tasks[k].item.link == l;
    assert Ended(s.tasks[k].pc);
    assert s.tasks[k].pc.Indexed?;
    assert s.articles[s.tasks[k].pc.idx].link == l;
  }

  lemma ArticleTask(s: State, w: World, i: nat) returns (k: nat)
    requires ArticlesOk(s, w) && i < |s.articles|
    ensures k < |s.tasks| && HasArticle(s.tasks[k].pc, i) && s.tasks[k].item == s.articles[i]
    ensures Words(w, s.articles[i].link) != []
  {
    hide Words;
    assert Written(s, i);
    k :| 0 <= k < |s.tasks| && HasArticle(s.tasks[k].pc, i);
  }

  lemma DistinctLinks(s: State, w: World, i: nat, j: nat)
    requires SeenOk(s) && ArticlesOk(s, w) && i < j < |s.articles|
    ensures s.articles[i].link != s.articles[j].link
  {
    hide Words, Written, Owned;
    var a := ArticleTask(s, w, i);
    var b := ArticleTask(s, w, j);
    assert Owns(s.tasks[a].pc) && Owns(s.tasks[b].pc) && a != b;
  }

  lemma ArticleIsReachable(s: State, w: World, feedList: seq<Item>, i: nat)
    requires Inv(s, w, feedList) && s.main.Finished? && i < |s.articles|
    ensures Reachable(w, feedList, s.articles[i]) && Words(w, s.articles[i].link) != [] && InIndex(s, i)
  {
    hide Words, Limited, SeenOk, IndexOk, Reachable;
    var k := ArticleTask(s, w, i);
    assert Ended(s.tasks[k].pc);
    FinishedSchedules(s, w, feedList, s.articles[i]);
  }

  lemma LinkGetsArticle(s: State, w: World, feedList: seq<Item>, item: Item)
    requires Inv(s, w, feedList) && s.main.Finished? && Reachable(w, feedList, item) && Words(w, item.link) != []
    ensures exists i :: 0 <= i < |s.articles| && s.articles[i].link == item.link
  {
    hide Words, Limited, IndexOk, Reachable, Owned, Written;
    FinishedSchedules(s, w, feedList, item);
    var k :| 0 <= k < |s.tasks| && s.tasks[k].item == item;
    assert Ended(s.tasks[k].pc);
    FinishedOwner(s, w, item.link);
  }

  /**
    When both waits have returned there is exactly one article for each distinct link listed by a
    fetched feed whose own text has words, and its title is one listed with that link.
   */
  lemma ArticlesAreTheLinks(w: World, feedList: seq<Item>, events: seq<Event>)
    requires Run(Init(feedList), w, feedList, events) && After(Init(feedList), w, feedList, events).main.Finished?
    ensures var s := After(Init(feedList), w, feedList, events);
      && (forall i, j :: 0 <= i < j < |s.articles| ==> s.articles[i].link != s.articles[j].link)
      && (forall i :: 0 <= i < |s.articles| ==>
        Reachable(w, feedList, s.articles[i]) && HasText(w.tokens(s.articles[i].link)))
      && (forall item :: Reachable(w, feedList, item) && HasText(w.tokens(item.link)) ==>
        exists i :: 0 <= i < |s.articles| && s.articles[i].link == item.link)
  {
    hide Enabled, Apply, Run, After, Inv, Reachable;
    InitKept(w, feedList);
    RunKeeps(Init(feedList), w, feedList, events);
    var s := After(Init(feedList), w, feedList, events);
    Parts(s, w, feedList);
    forall i, j | 0 <= i < j < |s.articles| ensures s.articles[i].link != s.articles[j].link {
      DistinctLinks(s, w, i, j);
    }
    forall i | 0 <= i < |s.articles|
      ensures Reachable(w, feedList, s.articles[i]) && HasText(w.tokens(s.articles[i].link))
    {
      ArticleIsReachable(s, w, feedList, i);
    }
    forall item | Reachable(w, feedList, item) && HasText(w.tokens(item.link))
      ensures exists i :: 0 <= i < |s.articles| && s.articles[i].link == item.link
    {
      LinkGetsArticle(s, w, feedList, item);
    }
  }

  lemma Parts(s: State, w: World, feedList: seq<Item>)
    requires Inv(s, w, feedList)
    ensures SeenOk(s) && ArticlesOk(s, w) && IndexOk(s, w)
  {
  }

  /** The index then holds, for every word and article, exactly how often the word occurs in it. */
  lemma IndexCounts(w: World, feedList: seq<Item>, events: seq<Event>, t: Str, i: nat)
    requires Run(Init(feedList), w, feedList, events) && After(Init(feedList), w, feedList, events).main.Finished?
    ensures var s := After(Init(feedList), w, feedList, events);
      && (t in s.index && i in s.index[t] <==>
        i < |s.articles| && w.tokens(s.articles[i].link).Some? && t in w.tokens(s.articles[i].link).value)
      && (t in s.index && i in s.index[t] ==>
        s.index[t][i] == multiset(w.tokens(s.articles[i].link).value)[t])
  {
    hide Enabled, Apply, Run, After, Inv, Reachable, Words;
    InitKept(w, feedList);
    RunKeeps(Init(feedList), w, feedList, events);
    var s := After(Init(feedList), w, feedList, events);
    Parts(s, w, feedList);
    if i < |s.articles| {
      ArticleIsReachable(s, w, feedList, i);
      CountMeansIn(Words(w, s.articles[i].link), t);
      WordsAre(w, s.articles[i].link, t);
    }
    EntryIs(s, w, t, i);
  }

  lemma WordsAre(w: World, link: Str, t: Str)
    ensures t in Words(w, link) <==> w.tokens(link).Some? && t in w.tokens(link).value
    ensures t in Words(w, link) ==> Count(Words(w, link), t) == multiset(w.tokens(link).value)[t]
  {
  }

  lemma CountMeansIn(ws: seq<Str>, t: Str)
    ensures Count(ws, t) > 0 <==> t in ws
  {
  }

  lemma EntryIs(s: State, w: World, t: Str, i: nat)
    requires IndexOk(s, w)
    ensures Entry(s.index, t, i) ==
      if i < |s.articles| && InIndex(s, i) then Count(Words(w, s.articles[i].link), t) else 0
    ensures t in s.index && i in s.index[t] <==> Entry(s.index, t, i) > 0
  {
    hide InIndex, Count, Words;
  }

  lemma MadeKept(s: State, w: World, feedList: seq<Item>, e: Event)
    requires SemaphoresMade(s, w) && Enabled(s, w, feedList, e)
    ensures SemaphoresMade(Apply(s, w, feedList, e), w)
  {
    hide StepFeed, StepTask;
    match e
    case FeedStep(k) => MadeByFeed(s, w, k);
    case TaskStep(k) => MadeByTask(s, w, k);
    case _ =>
  }

  lemma MadeByFeed(s: State, w: World, k: nat)
    requires SemaphoresMade(s, w) && k < |s.feeds|
    ensures SemaphoresMade(StepFeed(s, w, k), w)
  {
    hide Listed;
  }

  lemma MadeByTask(s: State, w: World, k: nat)
    requires SemaphoresMade(s, w) && k < |s.tasks|
    ensures SemaphoresMade(StepTask(s, w, k), w)
  {
    hide Words, AddCounts;
    var t := StepTask(s, w, k);
    assert t.tasks == s.tasks[k := t.tasks[k]] && t.feeds == s.feeds;
  }
}
