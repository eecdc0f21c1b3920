/**
  The aggregator's shared tables as the program keeps them: each method is one critical section
  of an article or feed task and does to the fields what the step machine says.
 */
module AggregatorTables {
  import opened Bytes
  import opened Text
  import opened Aggregator

  // counts[tok]++ over the words of an article.
  method CountWords(ws: seq<Str>) returns (counts: map<Str, nat>)
    ensures counts.Keys == (set t | t in ws) && forall t :: t in counts ==> counts[t] == Count(ws, t)
  {
    counts := map[];
    for i := 0 to |ws|
      invariant forall t :: t in counts <==> t in ws[..i]
      invariant forall t :: t in counts ==> counts[t] == Count(ws[..i], t)
    {
      var tok := ws[i];
      assert ws[..i + 1] == ws[..i] + [tok];
      assert tok !in counts ==> Count(ws[..i], tok) == 0;
      counts := counts[tok := (if tok in counts then counts[tok] else 0) + 1];
    }
    assert ws[..|ws|] == ws;
  }

  class NewsAggregator {
    var articles: seq<Item>
    var invertedIndex: Index
    var seenURLs: set<Str>
    var serverLimits: map<Str, nat>

    constructor ()
      ensures articles == [] && invertedIndex == map[] && seenURLs == {} && serverLimits == map[]
    {
      articles, invertedIndex, seenURLs, serverLimits := [], map[], {}, map[];
    }

    ghost predicate Shows(s: State)
      reads this
    {
      articles == s.articles && invertedIndex == s.index && seenURLs == s.seen && serverLimits == s.limits
    }

    // Under seenMutex: the first task to come owns the link.
    method MarkSeen(link: Str, ghost s: State, ghost w: World, ghost k: nat) returns (first: bool)
      requires Shows(s) && k < |s.tasks| && s.tasks[k].pc.CheckSeen? && link == s.tasks[k].item.link
      modifies this
      ensures Shows(StepTask(s, w, k)) && first == StepTask(s, w, k).tasks[k].pc.GetSemaphore?
    {
      first := link !in seenURLs;
      seenURLs := seenURLs + {link};
      assert !first ==> seenURLs == s.seen;
    }

    // Under serversMutex.
    method ServerSemaphore(host: Str)
      modifies this`serverLimits
      ensures serverLimits == WithSemaphore(old(serverLimits), host)
    {
      if host !in serverLimits {
        serverLimits := serverLimits[host := MAX_CONNECTIONS];
      }
    }

    method WaitSemaphore(host: Str, ghost s: State, ghost w: World, ghost k: nat)
      requires Shows(s) && k < |s.tasks| && s.tasks[k].pc.Acquire? && host == w.host(s.tasks[k].item.link)
      requires Value(serverLimits, host) > 0
      modifies this
      ensures Shows(StepTask(s, w, k))
    {
      serverLimits := serverLimits[host := serverLimits[host] - 1];
    }

    method SignalSemaphore(host: Str)
      requires host in serverLimits
      modifies this`serverLimits
      ensures serverLimits == old(serverLimits)[host := Value(old(serverLimits), host) + 1]
    {
      serverLimits := serverLimits[host := serverLimits[host] + 1];
    }

    // Under articlesMutex.
    method AppendArticle(item: Item, ghost s: State, ghost w: World, ghost k: nat) returns (idx: nat)
      requires Shows(s) && k < |s.tasks| && s.tasks[k].pc.Append? && item == s.tasks[k].item
      modifies this
      ensures Shows(StepTask(s, w, k)) && StepTask(s, w, k).tasks[k].pc == AddToIndex(idx)
    {
      idx := |articles|;
      articles := articles + [item];
    }

    // Under indexMutex: one pass over the counts of the article.
    method FoldCounts(idx: nat, counts: map<Str, nat>, ghost ws: seq<Str>)
      requires counts.Keys == (set t | t in ws) && forall t :: t in counts ==> counts[t] == Count(ws, t)
      modifies this`invertedIndex
      ensures invertedIndex == AddCounts(old(invertedIndex), idx, ws)
    {
      ghost var before := invertedIndex;
      var todo := counts.Keys;
      NothingAdded(before, idx, counts);
      AllAdded(before, idx, counts, ws);
      hide PartlyAdded, AddCounts;
      while todo != {}
        invariant todo <= counts.Keys
        invariant invertedIndex == PartlyAdded(before, idx, counts, todo)
        decreases |todo|
      {
        var t :| t in todo;
        OneMoreAdded(before, idx, counts, todo, t);
        var row: map<nat, nat> := if t in invertedIndex then invertedIndex[t] else map[];
        invertedIndex := invertedIndex[t := row[idx := (if idx in row then row[idx] else 0) + counts[t]]];
        todo := todo - {t};
      }
    }
  }

  // The index when all counts but those of `todo` are folded in.
  function PartlyAdded(before: Index, idx: nat, counts: map<Str, nat>, todo: set<Str>): Index {
    map t | t in before.Keys + (counts.Keys - todo) ::
      if t in counts && t !in todo then Row(before, t)[idx := Entry(before, t, idx) + counts[t]] else Row(before, t)
  }

  lemma NothingAdded(before: Index, idx: nat, counts: map<Str, nat>)
    ensures PartlyAdded(before, idx, counts, counts.Keys) == before
  {
  }

  lemma AllAdded(before: Index, idx: nat, counts: map<Str, nat>, ws: seq<Str>)
    requires counts.Keys == (set t | t in ws) && forall t :: t in counts ==> counts[t] == Count(ws, t)
    ensures PartlyAdded(before, idx, counts, {}) == AddCounts(before, idx, ws)
  {
    hide Row, Entry, Count;
  }

  lemma OneMoreAdded(before: Index, idx: nat, counts: map<Str, nat>, todo: set<Str>, t: Str)
    requires t in todo && todo <= counts.Keys
    ensures var now := PartlyAdded(before, idx, counts, todo);
      PartlyAdded(before, idx, counts, todo - {t}) == now[t := Row(now, t)[idx := Entry(now, t, idx) + counts[t]]]
  {
  }
}
