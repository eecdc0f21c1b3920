/**
  What every interleaving of the aggregator's tasks keeps.
 */
module AggregatorInvariant {
  import opened Bytes
  import opened Text
  import opened Totals
  import opened Aggregator

  // ------------------------------------------------------------ connections per host

  function FeedUse(w: World, h: Str): Feed -> int {
    (f: Feed) => if FeedHolds(f.pc) && w.host(f.item.link) == h then 1 else 0
  }

  function TaskUse(w: World, h: Str): Task -> int {
    (t: Task) => if Holds(t.pc) && w.host(t.item.link) == h then 1 else 0
  }

  // Downloads in progress from host h.
  function InUse(s: State, w: World, h: Str): int {
    Total(s.feeds, FeedUse(w, h)) + Total(s.tasks, TaskUse(w, h))
  }

  predicate HostOk(s: State, w: World, h: Str) {
    InUse(s, w, h) == if h in s.limits then MAX_CONNECTIONS - s.limits[h] else 0
  }

  ghost predicate Limited(s: State, w: World) {
    forall h :: HostOk(s, w, h)
  }

  lemma UseIsNat(s: State, w: World, h: Str)
    ensures Total(s.feeds, FeedUse(w, h)) >= 0 && Total(s.tasks, TaskUse(w, h)) >= 0
    ensures forall k :: 0 <= k < |s.feeds| ==> FeedUse(w, h)(s.feeds[k]) <= Total(s.feeds, FeedUse(w, h))
    ensures forall k :: 0 <= k < |s.tasks| ==> TaskUse(w, h)(s.tasks[k]) <= Total(s.tasks, TaskUse(w, h))
  {
    hide Total;
    TotalBounds(s.feeds, FeedUse(w, h));
    TotalBounds(s.tasks, TaskUse(w, h));
  }

  lemma NewUsesNothing(feed: Feed, task: Task, w: World, h: Str)
    requires feed.pc.FeedQueued? && task.pc.Queued?
    ensures FeedUse(w, h)(feed) == 0 && TaskUse(w, h)(task) == 0
  {
    var x := w.host(feed.item.link);
    var y := w.host(task.item.link);
    assert FeedUse(w, h)(feed) == if FeedHolds(feed.pc) && x == h then 1 else 0;
    assert TaskUse(w, h)(task) == if Holds(task.pc) && y == h then 1 else 0;
  }

  lemma FeedStepLimited(s: State, w: World, feedList: seq<Item>, k: nat)
    requires Limited(s, w) && Enabled(s, w, feedList, FeedStep(k))
    ensures Limited(StepFeed(s, w, k), w)
  {
    hide Total, Listed;
    var t := StepFeed(s, w, k);
    assert HostOk(s, w, w.host(s.feeds[k].item.link));
    UseIsNat(s, w, w.host(s.feeds[k].item.link));
    forall h ensures HostOk(t, w, h) {
      assert HostOk(s, w, h);
      TotalUpdate(s.feeds, k, t.feeds[k], FeedUse(w, h));
      assert t.feeds == s.feeds[k := t.feeds[k]];
      if s.feeds[k].pc.FeedSchedule? && s.feeds[k].pc.next < |Listed(w, s.feeds[k].item)| {
        var task := Task(Listed(w, s.feeds[k].item)[s.feeds[k].pc.next], Queued);
        TotalAppend(s.tasks, task, TaskUse(w, h));
        NewUsesNothing(Feed(task.item, FeedQueued), task, w, h);
      }
    }
  }

  lemma TaskStepLimited(s: State, w: World, feedList: seq<Item>, k: nat)
    requires Limited(s, w) && Enabled(s, w, feedList, TaskStep(k))
    ensures Limited(StepTask(s, w, k), w)
  {
    hide Total, Words, AddCounts;
    var t := StepTask(s, w, k);
    assert HostOk(s, w, w.host(s.tasks[k].item.link));
    UseIsNat(s, w, w.host(s.tasks[k].item.link));
    forall h ensures HostOk(t, w, h) {
      assert HostOk(s, w, h);
      TotalUpdate(s.tasks, k, t.tasks[k], TaskUse(w, h));
    }
  }

  lemma MainStepLimited(s: State, w: World, feedList: seq<Item>, e: Event)
    requires Limited(s, w) && Enabled(s, w, feedList, e) && !e.FeedStep? && !e.TaskStep?
    ensures Limited(Apply(s, w, feedList, e), w)
  {
    hide Total;
    var t := Apply(s, w, feedList, e);
    forall h ensures HostOk(t, w, h) {
      assert HostOk(s, w, h);
      if e.ScheduleFeed? {
        var feed := Feed(feedList[|s.feeds|], FeedQueued);
        TotalAppend(s.feeds, feed, FeedUse(w, h));
        assert t.feeds == s.feeds + [feed];
        NewUsesNothing(feed, Task(feed.item, Queued), w, h);
      }
      assert t.tasks == s.tasks && t.limits == s.limits;
    }
  }

  // ------------------------------------------------------------ who owns a link

  // Past the test of the seen-set.
  predicate Owns(pc: ArticlePc) {
    !pc.Queued? && !pc.CheckSeen? && !pc.Duplicate?
  }

  predicate Owned(s: State, l: Str) {
    exists k :: 0 <= k < |s.tasks| && Owns(s.tasks[k].pc) && s.tasks[k].item.link == l
  }

  // A link is in the seen-set exactly when one task owns it.
  ghost predicate SeenOk(s: State) {
    && (forall k :: 0 <= k < |s.tasks| && !s.tasks[k].pc.Queued? && !s.tasks[k].pc.CheckSeen? ==>
      s.tasks[k].item.link in s.seen)
    && (forall j, k :: 0 <= j < k < |s.tasks| && Owns(s.tasks[j].pc) && Owns(s.tasks[k].pc) ==>
      s.tasks[j].item.link != s.tasks[k].item.link)
    && (forall l :: l in s.seen ==> Owned(s, l))
  }

  lemma TaskStepSeen(s: State, w: World, feedList: seq<Item>, k: nat)
    requires SeenOk(s) && Enabled(s, w, feedList, TaskStep(k))
    ensures SeenOk(StepTask(s, w, k))
  {
    hide Words, AddCounts, Owned;
    var t := StepTask(s, w, k);
    TaskKeepsRest(s, w, k);
    forall l | l in t.seen ensures Owned(t, l) {
      OwnedStays(s, w, k, l);
    }
  }

  // A step changes only the pc of its own task.
  lemma TaskKeepsRest(s: State, w: World, k: nat)
    requires k < |s.tasks|
    ensures var t := StepTask(s, w, k);
      && |t.tasks| == |s.tasks| && t.tasks[k].item == s.tasks[k].item
      && (forall j :: 0 <= j < |s.tasks| && j != k ==> t.tasks[j] == s.tasks[j])
      && t.feeds == s.feeds && t.main == s.main
    ensures Owns(s.tasks[k].pc) ==> Owns(StepTask(s, w, k).tasks[k].pc)
  {
    hide Words, AddCounts, WithSemaphore, Value;
    var t := StepTask(s, w, k);
    assert t.tasks == s.tasks[k := t.tasks[k]];
  }

  lemma OwnedStays(s: State, w: World, k: nat, l: Str)
    requires k < |s.tasks| && (Owned(s, l) || l in StepTask(s, w, k).seen - s.seen)
    ensures Owned(StepTask(s, w, k), l)
  {
    hide Words, AddCounts;
    TaskKeepsRest(s, w, k);
    var t := StepTask(s, w, k);
    if Owned(s, l) {
      var j :| 0 <= j < |s.tasks| && Owns(s.tasks[j].pc) && s.tasks[j].item.link == l;
      assert Owns(t.tasks[j].pc) && t.tasks[j].item.link == l;
    } else {
      assert Owns(t.tasks[k].pc) && t.tasks[k].item.link == l;
    }
  }

  lemma FeedStepSeen(s: State, w: World, k: nat)
    requires SeenOk(s) && k < |s.feeds|
    ensures SeenOk(StepFeed(s, w, k))
  {
    hide Owned, Listed;
    var t := StepFeed(s, w, k);
    FeedKeepsTasks(s, w, k);
    forall l | l in t.seen ensures Owned(t, l) {
      OwnedByPrefix(s, t, l);
    }
  }

  lemma OwnedByPrefix(s: State, t: State, l: Str)
    requires s.tasks <= t.tasks && Owned(s, l)
    ensures Owned(t, l)
  {
    var k :| 0 <= k < |s.tasks| && Owns(s.tasks[k].pc) && s.tasks[k].item.link == l;
    assert t.tasks[k] == s.tasks[k];
  }

  // A feed task only ever adds article tasks.
  lemma FeedKeepsTasks(s: State, w: World, k: nat)
    requires k < |s.feeds|
    ensures var t := StepFeed(s, w, k);
      && s.tasks <= t.tasks && (forall j :: |s.tasks| <= j < |t.tasks| ==> t.tasks[j].pc.Queued?)
      && t.seen == s.seen && t.articles == s.articles && t.index == s.index && t.main == s.main
  {
    hide Listed;
  }

  // ------------------------------------------------------------ the article table

  predicate HasArticle(pc: ArticlePc, i: int) {
    (pc.AddToIndex? || pc.Indexed?) && pc.idx == i
  }

  predicate Written(s: State, i: nat) {
    exists k :: 0 <= k < |s.tasks| && HasArticle(s.tasks[k].pc, i)
  }

  predicate HasWords(pc: ArticlePc) {
    pc.Append? || pc.AddToIndex? || pc.Indexed?
  }

  // Articles are exactly the items of the owners that got words, once each.
  ghost predicate ArticlesOk(s: State, w: World) {
    && (forall k :: 0 <= k < |s.tasks| && (s.tasks[k].pc.AddToIndex? || s.tasks[k].pc.Indexed?) ==>
      s.tasks[k].pc.idx < |s.articles| && s.articles[s.tasks[k].pc.idx] == s.tasks[k].item)
    && (forall i :: 0 <= i < |s.articles| ==> Written(s, i))
    && (forall k :: 0 <= k < |s.tasks| && HasWords(s.tasks[k].pc) ==>
      Words(w, s.tasks[k].item.link) != [])
    && (forall k :: 0 <= k < |s.tasks| && s.tasks[k].pc.Nothing? ==> Words(w, s.tasks[k].item.link) == [])
  }

  lemma WrittenStays(s: State, w: World, k: nat, i: nat)
    requires k < |s.tasks| && (Written(s, i) || (s.tasks[k].pc.Append? && i == |s.articles|))
    ensures Written(StepTask(s, w, k), i)
  {
    hide Words, AddCounts;
    var t := StepTask(s, w, k);
    TaskKeepsRest(s, w, k);
    if Written(s, i) {
      var j :| 0 <= j < |s.tasks| && HasArticle(s.tasks[j].pc, i);
      assert HasArticle(t.tasks[j].pc, i);
    } else {
      assert HasArticle(t.tasks[k].pc, i);
    }
  }

  lemma TaskStepArticles(s: State, w: World, feedList: seq<Item>, k: nat)
    requires ArticlesOk(s, w) && Enabled(s, w, feedList, TaskStep(k))
    ensures ArticlesOk(StepTask(s, w, k), w)
  {
    hide AddCounts, Words, Written;
    var t := StepTask(s, w, k);
    TaskKeepsRest(s, w, k);
    forall i | 0 <= i < |t.articles| ensures Written(t, i) {
      WrittenStays(s, w, k, i);
    }
  }

  lemma FeedStepArticles(s: State, w: World, k: nat)
    requires ArticlesOk(s, w) && k < |s.feeds|
    ensures ArticlesOk(StepFeed(s, w, k), w)
  {
    hide Words, Listed, Written;
    var t := StepFeed(s, w, k);
    FeedKeepsTasks(s, w, k);
    forall i | 0 <= i < |t.articles| ensures Written(t, i) {
      WrittenByPrefix(s, t, i);
    }
  }

  lemma WrittenByPrefix(s: State, t: State, i: nat)
    requires s.tasks <= t.tasks && Written(s, i)
    ensures Written(t, i)
  {
    var k :| 0 <= k < |s.tasks| && HasArticle(s.tasks[k].pc, i);
    assert t.tasks[k] == s.tasks[k];
  }

  // ------------------------------------------------------------ the index

  predicate InIndex(s: State, i: nat) {
    exists k :: 0 <= k < |s.tasks| && s.tasks[k].pc == Indexed(i)
  }

  predicate Tight(index: Index) {
    forall t :: t in index ==> index[t] != map[] && forall i :: i in index[t] ==> index[t][i] > 0
  }

  // The index holds the counts of the articles folded in so far and nothing else.
  ghost predicate IndexOk(s: State, w: World) {
    && Tight(s.index)
    && (forall t, i: nat ::
      Entry(s.index, t, i) == if i < |s.articles| && InIndex(s, i) then Count(Words(w, s.articles[i].link), t) else 0)
  }

  lemma CountsAdd(index: Index, idx: nat, ws: seq<Str>, t: Str, i: nat)
    ensures Entry(AddCounts(index, idx, ws), t, i) == Entry(index, t, i) + if i == idx then Count(ws, t) else 0
  {
    assert t in ws <==> Count(ws, t) > 0;
  }

  lemma CountsTight(index: Index, idx: nat, ws: seq<Str>)
    requires Tight(index)
    ensures Tight(AddCounts(index, idx, ws))
  {
    var next := AddCounts(index, idx, ws);
    forall t | t in next ensures next[t] != map[] && forall i :: i in next[t] ==> next[t][i] > 0 {
      if t in ws {
        assert idx in next[t] && Count(ws, t) > 0;
      }
    }
  }

  lemma IndexStays(s: State, w: World, k: nat, i: nat)
    requires k < |s.tasks|
    ensures InIndex(StepTask(s, w, k), i) <==> InIndex(s, i) || s.tasks[k].pc == AddToIndex(i)
  {
    hide Words, AddCounts;
    var t := StepTask(s, w, k);
    TaskKeepsRest(s, w, k);
    if InIndex(s, i) {
      var j :| 0 <= j < |s.tasks| && s.tasks[j].pc == Indexed(i);
      assert t.tasks[j].pc == Indexed(i);
    }
    if s.tasks[k].pc == AddToIndex(i) {
      assert t.tasks[k].pc == Indexed(i);
    }
    if InIndex(t, i) {
      var j :| 0 <= j < |t.tasks| && t.tasks[j].pc == Indexed(i);
      assert j != k ==> s.tasks[j].pc == Indexed(i);
    }
  }

  // An article is folded in once: its task is the only one with that place.
  lemma NotYetIndexed(s: State, w: World, k: nat)
    requires SeenOk(s) && ArticlesOk(s, w) && k < |s.tasks| && s.tasks[k].pc.AddToIndex?
    ensures !InIndex(s, s.tasks[k].pc.idx)
  {
    hide Words, Written, Owned;
    var i := s.tasks[k].pc.idx;
    forall j | 0 <= j < |s.tasks| ensures s.tasks[j].pc != Indexed(i) {
      if j != k && HasArticle(s.tasks[j].pc, i) {
        assert s.tasks[j].item == s.tasks[k].item;
        var a, b := if j < k then j else k, if j < k then k else j;
        assert !(Owns(s.tasks[a].pc) && Owns(s.tasks[b].pc));
      }
    }
  }

  lemma TaskStepIndex(s: State, w: World, feedList: seq<Item>, k: nat)
    requires IndexOk(s, w) && SeenOk(s) && ArticlesOk(s, w) && Enabled(s, w, feedList, TaskStep(k))
    ensures IndexOk(StepTask(s, w, k), w)
  {
    hide Words, AddCounts, Written, Owned, InIndex, Entry, Tight, Count;
    var t := StepTask(s, w, k);
    var pc := s.tasks[k].pc;
    if pc.AddToIndex? {
      NotYetIndexed(s, w, k);
      CountsTight(s.index, pc.idx, Words(w, s.tasks[k].item.link));
    }
    forall x, i: nat ensures Entry(t.index, x, i) ==
      if i < |t.articles| && InIndex(t, i) then Count(Words(w, t.articles[i].link), x) else 0
    {
      IndexStays(s, w, k, i);
      if pc.AddToIndex? {
        CountsAdd(s.index, pc.idx, Words(w, s.tasks[k].item.link), x, i);
      } else if pc.Append? && i == |s.articles| {
        NoArticleYet(s, w, i);
      }
    }
  }

  lemma NoArticleYet(s: State, w: World, i: nat)
    requires ArticlesOk(s, w) && i >= |s.articles|
    ensures !InIndex(s, i)
  {
  }

  lemma FeedStepIndex(s: State, w: World, k: nat)
    requires IndexOk(s, w) && k < |s.feeds|
    ensures IndexOk(StepFeed(s, w, k), w)
  {
    hide Words, Listed, Entry, Count, Tight;
    var t := StepFeed(s, w, k);
    FeedKeepsTasks(s, w, k);
    forall i: nat ensures InIndex(t, i) <==> InIndex(s, i) {
      if InIndex(s, i) {
        var j :| 0 <= j < |s.tasks| && s.tasks[j].pc == Indexed(i);
        assert t.tasks[j].pc == Indexed(i);
      }
    }
  }

  // ------------------------------------------------------------ what gets scheduled

  predicate HasTask(s: State, item: Item) {
    exists k :: 0 <= k < |s.tasks| && s.tasks[k].item == item
  }

  predicate Wanted(s: State, w: World, item: Item) {
    exists i :: 0 <= i < |s.feeds| && item in Listed(w, s.feeds[i].item)
  }

  // How many of its items a feed task has scheduled.
  function Handed(w: World, feed: Feed): nat {
    match feed.pc
    case FeedSchedule(next) => next
    case FeedDone => |Listed(w, feed.item)|
    case _ => 0
  }

  ghost predicate FeedsOk(s: State, w: World, feedList: seq<Item>) {
    && |s.feeds| <= |feedList| && (s.main.Scheduling? <==> |s.feeds| < |feedList|)
    && (forall i :: 0 <= i < |s.feeds| ==> s.feeds[i].item == feedList[i])
    && (s.main.WaitArticles? || s.main.Finished? ==> forall i :: 0 <= i < |s.feeds| ==> s.feeds[i].pc.FeedDone?)
    && (s.main.Finished? ==> forall k :: 0 <= k < |s.tasks| ==> Ended(s.tasks[k].pc))
    && (forall i :: 0 <= i < |s.feeds| ==> Handed(w, s.feeds[i]) <= |Listed(w, s.feeds[i].item)|)
    && (forall i, j :: 0 <= i < |s.feeds| && 0 <= j < Handed(w, s.feeds[i]) ==>
        HasTask(s, Listed(w, s.feeds[i].item)[j]))
    && (forall k :: 0 <= k < |s.tasks| ==> Wanted(s, w, s.tasks[k].item))
  }

  lemma HasTaskStays(s: State, t: State, item: Item)
    requires |s.tasks| <= |t.tasks| && forall k :: 0 <= k < |s.tasks| ==> t.tasks[k].item == s.tasks[k].item
    ensures HasTask(s, item) ==> HasTask(t, item)
  {
    if HasTask(s, item) {
      var k :| 0 <= k < |s.tasks| && s.tasks[k].item == item;
      assert t.tasks[k].item == item;
    }
  }

  lemma WantedStays(s: State, t: State, w: World, item: Item)
    requires |s.feeds| <= |t.feeds| && forall i :: 0 <= i < |s.feeds| ==> t.feeds[i].item == s.feeds[i].item
    ensures Wanted(s, w, item) ==> Wanted(t, w, item)
  {
    if Wanted(s, w, item) {
      var i :| 0 <= i < |s.feeds| && item in Listed(w, s.feeds[i].item);
      assert item in Listed(w, t.feeds[i].item);
    }
  }

  lemma TaskStepFeeds(s: State, w: World, feedList: seq<Item>, k: nat)
    requires FeedsOk(s, w, feedList) && Enabled(s, w, feedList, TaskStep(k))
    ensures FeedsOk(StepTask(s, w, k), w, feedList)
  {
    TaskKeepsRest(s, w, k);
    hide StepTask, HasTask, Wanted, Listed, Handed;
    var t := StepTask(s, w, k);
    forall item ensures HasTask(s, item) ==> HasTask(t, item) {
      HasTaskStays(s, t, item);
    }
    forall item ensures Wanted(s, w, item) ==> Wanted(t, w, item) {
      WantedStays(s, t, w, item);
    }
  }

  lemma FeedStepFeeds(s: State, w: World, feedList: seq<Item>, k: nat)
    requires FeedsOk(s, w, feedList) && Enabled(s, w, feedList, FeedStep(k))
    ensures FeedsOk(StepFeed(s, w, k), w, feedList)
  {
    FeedKeepsTasks(s, w, k);
    FeedStepTask(s, w, k);
    hide StepFeed, HasTask, Wanted, Listed, Handed;
    var t := StepFeed(s, w, k);
    forall item ensures HasTask(s, item) ==> HasTask(t, item) {
      HasTaskStays(s, t, item);
    }
    forall item ensures Wanted(s, w, item) ==> Wanted(t, w, item) {
      WantedStays(s, t, w, item);
    }
  }

  // What one step of a feed task does to the schedule.
  lemma FeedStepTask(s: State, w: World, k: nat)
    requires k < |s.feeds| && Handed(w, s.feeds[k]) <= |Listed(w, s.feeds[k].item)| && !s.feeds[k].pc.FeedDone?
    ensures var t := StepFeed(s, w, k);
      && |t.feeds| == |s.feeds| && t.feeds[k].item == s.feeds[k].item
      && (forall i :: 0 <= i < |s.feeds| && i != k ==> t.feeds[i] == s.feeds[i])
      && Handed(w, s.feeds[k]) <= Handed(w, t.feeds[k]) <= |Listed(w, s.feeds[k].item)|
      && (forall j :: Handed(w, s.feeds[k]) <= j < Handed(w, t.feeds[k]) ==> HasTask(t, Listed(w, s.feeds[k].item)[j]))
      && (forall j :: |s.tasks| <= j < |t.tasks| ==> Wanted(s, w, t.tasks[j].item))
  {
    hide WithSemaphore, Value;
    var t := StepFeed(s, w, k);
    if s.feeds[k].pc.FeedSchedule? && s.feeds[k].pc.next < |Listed(w, s.feeds[k].item)| {
      assert t.tasks[|s.tasks|].item == Listed(w, s.feeds[k].item)[s.feeds[k].pc.next];
    }
  }

  lemma MainStepFeeds(s: State, w: World, feedList: seq<Item>, e: Event)
    requires FeedsOk(s, w, feedList) && Enabled(s, w, feedList, e) && !e.FeedStep? && !e.TaskStep?
    ensures FeedsOk(Apply(s, w, feedList, e), w, feedList)
  {
    hide HasTask, Wanted, Listed;
    var t := Apply(s, w, feedList, e);
    forall item ensures HasTask(s, item) ==> HasTask(t, item) {
      HasTaskStays(s, t, item);
    }
    forall item ensures Wanted(s, w, item) ==> Wanted(t, w, item) {
      WantedStays(s, t, w, item);
    }
  }
}
