/**
  The news aggregator as a step machine: two pools of 8 and 24 threads, feed tasks that schedule
  article tasks, per-host semaphores, a set of seen links, the article table and the inverted
  index. Downloading and parsing are functions of the URL.
 */
module Aggregator {
  import opened Bytes
  import opened Text
  import opened Totals

  const FEED_THREADS := 8
  const ARTICLE_THREADS := 24
  const MAX_CONNECTIONS := 8

  datatype Item = Item(title: Str, link: Str)

  datatype World = World(
    feedItems: Str -> Option<seq<Item>>, // items of a feed, None if it cannot be fetched
    tokens: Str -> Option<seq<Str>>,     // words of an article, None if it cannot be fetched
    host: Str -> Str
  )

  // A queued task has no thread yet.
  datatype FeedPc =
    | FeedQueued | FeedGetSemaphore | FeedAcquire | FeedFetch | FeedRelease | FeedSchedule(next: nat) | FeedDone

  datatype ArticlePc =
    | Queued | CheckSeen | GetSemaphore | Acquire | Fetch | Release | Append | AddToIndex(idx: nat)
    | Indexed(idx: nat) // finished in one of three ways
    | Duplicate
    | Nothing

  datatype Feed = Feed(item: Item, pc: FeedPc)

  datatype Task = Task(item: Item, pc: ArticlePc)

  // The main thread: scheduling feeds, the two waits, past both.
  datatype MainPc = Scheduling | WaitFeeds | WaitArticles | Finished

  type Index = map<Str, map<nat, nat>>

  datatype State = State(
    main: MainPc, feeds: seq<Feed>, tasks: seq<Task>,
    seen: set<Str>, limits: map<Str, nat>, // semaphore values
    articles: seq<Item>, index: Index
  )

  datatype Event = ScheduleFeed | PassFeedWait | PassArticleWait | FeedStep(k: nat) | TaskStep(k: nat)

  predicate FeedHolds(pc: FeedPc) {
    pc.FeedFetch? || pc.FeedRelease?
  }

  predicate Holds(pc: ArticlePc) {
    pc.Fetch? || pc.Release?
  }

  predicate Ended(pc: ArticlePc) {
    pc.Indexed? || pc.Duplicate? || pc.Nothing?
  }

  // Tasks that occupy a thread of their pool.
  function FeedActive(f: Feed): int {
    if f.pc.FeedQueued? || f.pc.FeedDone? then 0 else 1
  }

  function TaskActive(t: Task): int {
    if t.pc.Queued? || Ended(t.pc) then 0 else 1
  }

  // A pool takes its tasks in the order in which they were scheduled, when a thread is free.
  predicate FeedTurn(s: State, k: nat) {
    (forall j :: 0 <= j < |s.feeds| && j < k ==> !s.feeds[j].pc.FeedQueued?) &&
      Total(s.feeds, FeedActive) < FEED_THREADS
  }

  predicate TaskTurn(s: State, k: nat) {
    (forall j :: 0 <= j < |s.tasks| && j < k ==> !s.tasks[j].pc.Queued?) && Total(s.tasks, TaskActive) < ARTICLE_THREADS
  }

  function Value(limits: map<Str, nat>, host: Str): nat {
    if host in limits then limits[host] else 0
  }

  function WithSemaphore(limits: map<Str, nat>, host: Str): map<Str, nat> {
    if host in limits then limits else limits[host := MAX_CONNECTIONS]
  }

  function Row(index: Index, t: Str): map<nat, nat> {
    if t in index then index[t] else map[]
  }

  function Entry(index: Index, t: Str, i: nat): nat {
    if t in index && i in index[t] then index[t][i] else 0
  }

  function Count(ws: seq<Str>, t: Str): nat {
    multiset(ws)[t]
  }

  // Folding the counts of one article into the index.
  function AddCounts(index: Index, idx: nat, ws: seq<Str>): Index {
    map t | t in index.Keys + (set w | w in ws) ::
      if t in ws then Row(index, t)[idx := Entry(index, t, idx) + Count(ws, t)] else Row(index, t)
  }

  predicate Enabled(s: State, w: World, feedList: seq<Item>, e: Event) {
    match e
    case ScheduleFeed => s.main.Scheduling? && |s.feeds| < |feedList|
    case PassFeedWait => s.main.WaitFeeds? && forall k :: 0 <= k < |s.feeds| ==> s.feeds[k].pc.FeedDone?
    case PassArticleWait => s.main.WaitArticles? && forall k :: 0 <= k < |s.tasks| ==> Ended(s.tasks[k].pc)
    case FeedStep(k) =>
      k < |s.feeds| && !s.feeds[k].pc.FeedDone? && (s.feeds[k].pc.FeedQueued? ==> FeedTurn(s, k)) &&
      (s.feeds[k].pc.FeedAcquire? ==> Value(s.limits, w.host(s.feeds[k].item.link)) > 0)
    case TaskStep(k) =>
      k < |s.tasks| && !Ended(s.tasks[k].pc) && (s.tasks[k].pc.Queued? ==> TaskTurn(s, k)) &&
      (s.tasks[k].pc.Acquire? ==> Value(s.limits, w.host(s.tasks[k].item.link)) > 0)
  }

  // The items a feed task schedules; none if the feed cannot be fetched.
  function Listed(w: World, feed: Item): seq<Item> {
    var items := w.feedItems(feed.link);
    if items.Some? then items.value else []
  }

  function Words(w: World, link: Str): seq<Str> {
    var ws := w.tokens(link);
    if ws.Some? then ws.value else []
  }

  function StepFeed(s: State, w: World, k: nat): State
    requires k < |s.feeds|
  {
    var feed := s.feeds[k];
    var host := w.host(feed.item.link);
    var items := Listed(w, feed.item);
    match feed.pc
    case FeedQueued => s.(feeds := s.feeds[k := feed.(pc := FeedGetSemaphore)])
    case FeedGetSemaphore =>
      s.(limits := WithSemaphore(s.limits, host), feeds := s.feeds[k := feed.(pc := FeedAcquire)])
    case FeedAcquire =>
      s.(limits := if Value(s.limits, host) > 0 then s.limits[host := Value(s.limits, host) - 1] else s.limits,
        feeds := s.feeds[k := feed.(pc := FeedFetch)])
    case FeedFetch => s.(feeds := s.feeds[k := feed.(pc := FeedRelease)])
    case FeedRelease =>
      s.(limits := s.limits[host := Value(s.limits, host) + 1],
        feeds := s.feeds[k := feed.(pc := if w.feedItems(feed.item.link).Some? then FeedSchedule(0) else FeedDone)])
    case FeedSchedule(next) =>
      if next < |items| then
        s.(tasks := s.tasks + [Task(items[next], Queued)], feeds := s.feeds[k := feed.(pc := FeedSchedule(next + 1))])
      else s.(feeds := s.feeds[k := feed.(pc := FeedDone)])
    case FeedDone => s
  }

  function SetPc(s: State, k: nat, pc: ArticlePc): State
    requires k < |s.tasks|
  {
    s.(tasks := s.tasks[k := s.tasks[k].(pc := pc)])
  }

  function StepTask(s: State, w: World, k: nat): State
    requires k < |s.tasks|
  {
    var item := s.tasks[k].item;
    var host := w.host(item.link);
    match s.tasks[k].pc
    case Queued => SetPc(s, k, CheckSeen)
    case CheckSeen =>
      if item.link in s.seen then SetPc(s, k, Duplicate) else SetPc(s, k, GetSemaphore).(seen := s.seen + {item.link})
    case GetSemaphore => SetPc(s, k, Acquire).(limits := WithSemaphore(s.limits, host))
    case Acquire =>
      SetPc(s, k, Fetch).(limits :=
        if Value(s.limits, host) > 0 then s.limits[host := Value(s.limits, host) - 1] else s.limits)
    case Fetch => SetPc(s, k, Release)
    case Release =>
      SetPc(s, k, if Words(w, item.link) == [] then Nothing else Append).
        (limits := s.limits[host := Value(s.limits, host) + 1])
    case Append => SetPc(s, k, AddToIndex(|s.articles|)).(articles := s.articles + [item])
    case AddToIndex(idx) => SetPc(s, k, Indexed(idx)).(index := AddCounts(s.index, idx, Words(w, item.link)))
    case _ => s
  }

  function Apply(s: State, w: World, feedList: seq<Item>, e: Event): State
    requires Enabled(s, w, feedList, e)
  {
    match e
    case ScheduleFeed =>
      s.(feeds := s.feeds + [Feed(feedList[|s.feeds|], FeedQueued)],
        main := if |s.feeds| + 1 == |feedList| then WaitFeeds else Scheduling)
    case PassFeedWait => s.(main := WaitArticles)
    case PassArticleWait => s.(main := Finished)
    case FeedStep(k) => StepFeed(s, w, k)
    case TaskStep(k) => StepTask(s, w, k)
  }

  function Init(feedList: seq<Item>): State {
    State(if feedList == [] then WaitFeeds else Scheduling, [], [], {}, map[], [], map[])
  }
}
