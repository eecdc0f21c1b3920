/**
  The crawl comes to an end: with 8 and 24 threads and the throttle, some step can always be taken,
  and only so many steps exist.
 */
module AggregatorProgress {
  import opened Bytes
  import opened Text
  import opened Totals
  import opened Aggregator
  import opened AggregatorInvariant
  import opened AggregatorTheorems

  // ------------------------------------------------------------ the pools

  ghost predicate PoolsOk(s: State) {
    Total(s.feeds, FeedActive) <= FEED_THREADS && Total(s.tasks, TaskActive) <= ARTICLE_THREADS
  }

  lemma FeedStepPools(s: State, w: World, feedList: seq<Item>, k: nat)
    requires PoolsOk(s) && Enabled(s, w, feedList, FeedStep(k))
    ensures PoolsOk(StepFeed(s, w, k))
  {
    hide Total, Listed, WithSemaphore, Value;
    var t := StepFeed(s, w, k);
    assert t.feeds == s.feeds[k := t.feeds[k]];
    TotalUpdate(s.feeds, k, t.feeds[k], FeedActive);
    if |t.tasks| > |s.tasks| {
      TotalAppend(s.tasks, t.tasks[|s.tasks|], TaskActive);
    }
  }

  lemma TaskStepPools(s: State, w: World, feedList: seq<Item>, k: nat)
    requires PoolsOk(s) && Enabled(s, w, feedList, TaskStep(k))
    ensures PoolsOk(StepTask(s, w, k))
  {
    hide Total, Words, AddCounts, WithSemaphore, Value;
    var t := StepTask(s, w, k);
    assert t.tasks == s.tasks[k := t.tasks[k]] && t.feeds == s.feeds;
    TotalUpdate(s.tasks, k, t.tasks[k], TaskActive);
  }

  lemma PoolsKept(s: State, w: World, feedList: seq<Item>, e: Event)
    requires PoolsOk(s) && Enabled(s, w, feedList, e)
    ensures PoolsOk(Apply(s, w, feedList, e))
  {
    hide Total, StepFeed, StepTask;
    match e
    case FeedStep(k) => FeedStepPools(s, w, feedList, k);
    case TaskStep(k) => TaskStepPools(s, w, feedList, k);
    case ScheduleFeed => TotalAppend(s.feeds, Feed(feedList[|s.feeds|], FeedQueued), FeedActive);
    case _ =>
  }

  lemma {:induction false} RunKeepsPools(s: State, w: World, feedList: seq<Item>, events: seq<Event>)
    requires PoolsOk(s) && Run(s, w, feedList, events)
    ensures PoolsOk(After(s, w, feedList, events))
    decreases |events|
  {
    hide PoolsOk, Apply, Enabled;
    if events != [] {
      PoolsKept(s, w, feedList, events[0]);
      RunKeepsPools(Apply(s, w, feedList, events[0]), w, feedList, events[1..]);
    }
  }

  /** In every run at most 8 feed tasks and 24 article tasks are under way. */
  lemma ThreadsSuffice(w: World, feedList: seq<Item>, events: seq<Event>)
    requires Run(Init(feedList), w, feedList, events)
    ensures var s := After(Init(feedList), w, feedList, events);
      Total(s.feeds, FeedActive) <= 8 && Total(s.tasks, TaskActive) <= 24
  {
    RunKeepsPools(Init(feedList), w, feedList, events);
  }

  // ------------------------------------------------------------ some step can be taken

  // An exhausted host has a download in progress, which can go on.
  lemma Holder(s: State, w: World, feedList: seq<Item>, h: Str) returns (e: Event)
    requires Limited(s, w) && h in s.limits && s.limits[h] == 0
    ensures Enabled(s, w, feedList, e)
  {
    hide Total;
    assert HostOk(s, w, h);
    if Total(s.feeds, FeedUse(w, h)) > 0 {
      var k := TotalWitness(s.feeds, FeedUse(w, h));
      e := FeedStep(k);
      var f := s.feeds[k];
      assert FeedUse(w, h)(f) == if FeedHolds(f.pc) && w.host(f.item.link) == h then 1 else 0;
    } else {
      var k := TotalWitness(s.tasks, TaskUse(w, h));
      e := TaskStep(k);
      var t := s.tasks[k];
      assert TaskUse(w, h)(t) == if Holds(t.pc) && w.host(t.item.link) == h then 1 else 0;
    }
  }

  // A feed task that has a thread can go on, or waits for someone who can.
  lemma ActiveFeedMoves(s: State, w: World, feedList: seq<Item>, k: nat) returns (e: Event)
    requires Limited(s, w) && SemaphoresMade(s, w) && k < |s.feeds| && FeedActive(s.feeds[k]) > 0
    ensures Enabled(s, w, feedList, e)
  {
    hide Limited, FeedTurn, TaskTurn;
    e := FeedStep(k);
    if !Enabled(s, w, feedList, e) {
      e := Holder(s, w, feedList, w.host(s.feeds[k].item.link));
    }
  }

  lemma ActiveTaskMoves(s: State, w: World, feedList: seq<Item>, k: nat) returns (e: Event)
    requires Limited(s, w) && SemaphoresMade(s, w) && k < |s.tasks| && TaskActive(s.tasks[k]) > 0
    ensures Enabled(s, w, feedList, e)
  {
    hide Limited, FeedTurn, TaskTurn;
    e := TaskStep(k);
    if !Enabled(s, w, feedList, e) {
      e := Holder(s, w, feedList, w.host(s.tasks[k].item.link));
    }
  }

  lemma {:induction false} FirstQueuedFeed(s: State, k: nat) returns (i: nat)
    requires k < |s.feeds| && s.feeds[k].pc.FeedQueued?
    ensures i <= k && s.feeds[i].pc.FeedQueued? && forall j :: 0 <= j < i ==> !s.feeds[j].pc.FeedQueued?
    decreases k
  {
    if j :| 0 <= j < k && s.feeds[j].pc.FeedQueued? {
      i := FirstQueuedFeed(s, j);
    } else {
      i := k;
    }
  }

  lemma {:induction false} FirstQueuedTask(s: State, k: nat) returns (i: nat)
    requires k < |s.tasks| && s.tasks[k].pc.Queued?
    ensures i <= k && s.tasks[i].pc.Queued? && forall j :: 0 <= j < i ==> !s.tasks[j].pc.Queued?
    decreases k
  {
    if j :| 0 <= j < k && s.tasks[j].pc.Queued? {
      i := FirstQueuedTask(s, j);
    } else {
      i := k;
    }
  }

  // A feed task not done: a thread works on some feed, or one is free for the first in the queue.
  lemma FeedsMove(s: State, w: World, feedList: seq<Item>, k: nat) returns (e: Event)
    requires Limited(s, w) && SemaphoresMade(s, w) && k < |s.feeds| && !s.feeds[k].pc.FeedDone?
    ensures Enabled(s, w, feedList, e)
  {
    hide Total, Limited, SemaphoresMade;
    if Total(s.feeds, FeedActive) > 0 {
      var i := TotalWitness(s.feeds, FeedActive);
      e := ActiveFeedMoves(s, w, feedList, i);
    } else {
      TotalBounds(s.feeds, FeedActive);
      assert FeedActive(s.feeds[k]) == 0;
      var i := FirstQueuedFeed(s, k);
      e := FeedStep(i);
    }
  }

  lemma TasksMove(s: State, w: World, feedList: seq<Item>, k: nat) returns (e: Event)
    requires Limited(s, w) && SemaphoresMade(s, w) && k < |s.tasks| && !Ended(s.tasks[k].pc)
    ensures Enabled(s, w, feedList, e)
  {
    hide Total, Limited, SemaphoresMade;
    if Total(s.tasks, TaskActive) > 0 {
      var i := TotalWitness(s.tasks, TaskActive);
      e := ActiveTaskMoves(s, w, feedList, i);
    } else {
      TotalBounds(s.tasks, TaskActive);
      assert TaskActive(s.tasks[k]) == 0;
      var i := FirstQueuedTask(s, k);
      e := TaskStep(i);
    }
  }

  /**
    Until both waits have returned some step can be taken, by a task that has a thread or by a free
    thread: neither the throttle nor the size of the pools blocks the crawl.
   */
  lemma NeverStuck(s: State, w: World, feedList: seq<Item>) returns (e: Event)
    requires Inv(s, w, feedList) && !s.main.Finished?
    ensures Enabled(s, w, feedList, e)
  {
    hide SeenOk, ArticlesOk, IndexOk, Limited, SemaphoresMade, FeedTurn, TaskTurn;
    if s.main.Scheduling? {
      e := ScheduleFeed;
    } else if k :| 0 <= k < |s.feeds| && !s.feeds[k].pc.FeedDone? {
      e := FeedsMove(s, w, feedList, k);
    } else if k :| 0 <= k < |s.tasks| && !Ended(s.tasks[k].pc) {
      e := TasksMove(s, w, feedList, k);
    } else {
      e := if s.main.WaitFeeds? then PassFeedWait else PassArticleWait;
    }
  }

  // ------------------------------------------------------------ and the steps run out

  function TaskLeft(t: Task): int {
    match t.pc
    case Queued => 8
    case CheckSeen => 7
    case GetSemaphore => 6
    case Acquire => 5
    case Fetch => 4
    case Release => 3
    case Append => 2
    case AddToIndex(_) => 1
    case _ => 0
  }

  // Steps of a feed task: nine for each item it still schedules, eight of them that item's own.
  function FeedLeft(w: World): Feed -> int {
    (f: Feed) =>
      var n := 9 * |Listed(w, f.item)|;
      match f.pc
      case FeedQueued => n + 6
      case FeedGetSemaphore => n + 5
      case FeedAcquire => n + 4
      case FeedFetch => n + 3
      case FeedRelease => n + 2
      case FeedSchedule(next) => n - 9 * next + 1
      case FeedDone => 0
  }

  function Unscheduled(w: World, feedList: seq<Item>, i: nat): nat
    requires i <= |feedList|
    decreases |feedList| - i
  {
    if i == |feedList| then 0 else 9 * |Listed(w, feedList[i])| + 7 + Unscheduled(w, feedList, i + 1)
  }

  function MainLeft(m: MainPc): nat {
    match m
    case Finished => 0
    case WaitArticles => 1
    case _ => 2
  }

  function Work(s: State, w: World, feedList: seq<Item>): int
    requires |s.feeds| <= |feedList|
  {
    Unscheduled(w, feedList, |s.feeds|) + Total(s.feeds, FeedLeft(w)) + Total(s.tasks, TaskLeft) + MainLeft(s.main)
  }

  lemma WorkIsNat(s: State, w: World, feedList: seq<Item>)
    requires FeedsOk(s, w, feedList)
    ensures Work(s, w, feedList) >= 0
  {
    hide Total, Listed, HasTask, Wanted;
    forall f | f in s.feeds ensures FeedLeft(w)(f) >= 0 {
      var i :| 0 <= i < |s.feeds| && s.feeds[i] == f;
      assert Handed(w, s.feeds[i]) <= |Listed(w, s.feeds[i].item)|;
    }
    TotalBounds(s.feeds, FeedLeft(w));
    TotalBounds(s.tasks, TaskLeft);
  }

  lemma FeedWork(s: State, w: World, feedList: seq<Item>, k: nat)
    requires Enabled(s, w, feedList, FeedStep(k)) && |s.feeds| <= |feedList|
    requires Handed(w, s.feeds[k]) <= |Listed(w, s.feeds[k].item)|
    ensures |StepFeed(s, w, k).feeds| == |s.feeds|
    ensures Work(StepFeed(s, w, k), w, feedList) < Work(s, w, feedList)
  {
    hide Total, Listed, WithSemaphore, Value, Unscheduled, FeedTurn;
    var t := StepFeed(s, w, k);
    assert t.feeds == s.feeds[k := t.feeds[k]] && t.main == s.main;
    TotalUpdate(s.feeds, k, t.feeds[k], FeedLeft(w));
    FeedPays(w, s.feeds[k], t.feeds[k]);
    if |t.tasks| > |s.tasks| {
      TotalAppend(s.tasks, t.tasks[|s.tasks|], TaskLeft);
    }
  }

  lemma FeedPays(w: World, f: Feed, g: Feed)
    requires f.item == g.item && !f.pc.FeedDone? && Handed(w, f) <= |Listed(w, f.item)|
    requires match f.pc
      case FeedQueued => g.pc.FeedGetSemaphore?
      case FeedGetSemaphore => g.pc.FeedAcquire?
      case FeedAcquire => g.pc.FeedFetch?
      case FeedFetch => g.pc.FeedRelease?
      case FeedRelease => g.pc == FeedSchedule(0) || g.pc.FeedDone?
      case FeedSchedule(next) => g.pc.FeedDone? || g.pc == FeedSchedule(next + 1)
    ensures FeedLeft(w)(g) <= FeedLeft(w)(f) - if g.pc.FeedSchedule? && g.pc.next > 0 then 9 else 1
  {
    hide Listed;
    var n := |Listed(w, f.item)|;
    assert n == |Listed(w, g.item)|;
  }

  lemma TaskWork(s: State, w: World, feedList: seq<Item>, k: nat)
    requires Enabled(s, w, feedList, TaskStep(k)) && |s.feeds| <= |feedList|
    ensures |StepTask(s, w, k).feeds| == |s.feeds|
    ensures Work(StepTask(s, w, k), w, feedList) < Work(s, w, feedList)
  {
    hide Total, Words, AddCounts, WithSemaphore, Value, Unscheduled, TaskTurn;
    var t := StepTask(s, w, k);
    assert t.tasks == s.tasks[k := t.tasks[k]] && t.feeds == s.feeds && t.main == s.main;
    TotalUpdate(s.tasks, k, t.tasks[k], TaskLeft);
  }

  lemma ScheduleWork(s: State, w: World, feedList: seq<Item>)
    requires Enabled(s, w, feedList, ScheduleFeed)
    ensures Work(Apply(s, w, feedList, ScheduleFeed), w, feedList) < Work(s, w, feedList)
  {
    hide Total, Listed;
    var feed := Feed(feedList[|s.feeds|], FeedQueued);
    TotalAppend(s.feeds, feed, FeedLeft(w));
    assert FeedLeft(w)(feed) == 9 * |Listed(w, feed.item)| + 6;
  }

  /** Every step of every thread leaves less to do. */
  lemma WorkFalls(s: State, w: World, feedList: seq<Item>, e: Event)
    requires Inv(s, w, feedList) && Enabled(s, w, feedList, e)
    ensures |Apply(s, w, feedList, e).feeds| <= |feedList|
    ensures Work(Apply(s, w, feedList, e), w, feedList) < Work(s, w, feedList)
  {
    hide StepFeed, StepTask, SeenOk, ArticlesOk, IndexOk, Limited, SemaphoresMade, Total, Unscheduled, Handed;
    hide Listed, Wanted;
    match e
    case FeedStep(k) => FeedWork(s, w, feedList, k);
    case TaskStep(k) => TaskWork(s, w, feedList, k);
    case ScheduleFeed => ScheduleWork(s, w, feedList);
    case _ =>
  }

  lemma {:induction false} RunIsBounded(s: State, w: World, feedList: seq<Item>, events: seq<Event>)
    requires Inv(s, w, feedList) && Run(s, w, feedList, events)
    ensures |s.feeds| <= |feedList| && |events| <= Work(s, w, feedList)
    decreases |events|
  {
    FeedCount(s, w, feedList);
    hide Inv, Apply, Enabled, Work;
    if events == [] {
      WorkOfInv(s, w, feedList);
    } else {
      StepKept(s, w, feedList, events[0]);
      WorkFalls(s, w, feedList, events[0]);
      RunIsBounded(Apply(s, w, feedList, events[0]), w, feedList, events[1..]);
    }
  }

  lemma FeedCount(s: State, w: World, feedList: seq<Item>)
    requires Inv(s, w, feedList)
    ensures |s.feeds| <= |feedList|
  {
  }

  lemma WorkOfInv(s: State, w: World, feedList: seq<Item>)
    requires Inv(s, w, feedList)
    ensures |s.feeds| <= |feedList| && Work(s, w, feedList) >= 0
  {
    WorkIsNat(s, w, feedList);
  }

  /**
    Every run ends: none takes more steps than the feed list and its items account for, and one that
    can go no further has passed both waits.
   */
  lemma EveryRunFinishes(w: World, feedList: seq<Item>, events: seq<Event>)
    requires Run(Init(feedList), w, feedList, events)
    ensures |events| <= Unscheduled(w, feedList, 0) + 2
    ensures (forall e :: !Enabled(After(Init(feedList), w, feedList, events), w, feedList, e)) ==>
      After(Init(feedList), w, feedList, events).main.Finished?
  {
    hide Run, After, Inv, Enabled, Unscheduled;
    InitKept(w, feedList);
    RunKeeps(Init(feedList), w, feedList, events);
    RunIsBounded(Init(feedList), w, feedList, events);
    var s := After(Init(feedList), w, feedList, events);
    if !s.main.Finished? {
      var e := NeverStuck(s, w, feedList);
    }
  }
}
