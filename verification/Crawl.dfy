/**
 Runs of the crawl: any number of workers take the next queued page, discover its
 links at most once, and finish with it.
 */
module Crawl {
  import opened Prelude
  import opened Frontier

  /**
   The frontier plus the history of the run: the pages whose links were followed, every
   page ever enqueued, one copy of a cell per structural child paid from it, and how
   often the queue was read and acknowledged.
   */
  datatype Crawl<C> = Crawl(
    f: Frontier<C>,
    expanded: set<nat>,
    born: seq<Item<C>>,
    structural: multiset<C>,
    gets: nat,
    acks: nat)

  datatype Step<C> =
    | Take(page: nat)
    | Discover(page: nat, domain: Option<int>, links: seq<RawLink>, backpressured: bool, mint: C)
    | Done(page: nat)

  function IndexOf<C>(items: seq<Item<C>>, n: nat): (i: nat)
    ensures i <= |items|
    ensures i < |items| <==> n in Counters(items)
    ensures i < |items| ==> items[i].counter == n
  {
    if items == [] then 0
    else if items[0].counter == n then 0
    else
      assert forall k :: 0 <= k < |items[1..]| ==> items[1..][k] == items[k + 1];
      1 + IndexOf(items[1..], n)
  }

  function PageOf<C>(f: Frontier<C>, n: nat): Item<C>
    requires n in Counters(f.pending)
  {
    f.pending[IndexOf(f.pending, n)]
  }

  function InFlight<C>(f: Frontier<C>): set<nat> {
    Counters(f.pending) - f.queued
  }

  /** The order of the priority queue. */
  predicate Before<C>(a: Item<C>, b: Item<C>) {
    a.priority < b.priority || (a.priority == b.priority && a.counter < b.counter)
  }

  predicate IsNext<C>(f: Frontier<C>, n: nat) {
    && n in f.queued && f.queued <= Counters(f.pending)
    && forall m :: m in f.queued && m != n ==> Before(PageOf(f, n), PageOf(f, m))
  }

  ghost predicate Enabled<C(!new)>(p: Policy, workers: nat, s: Crawl<C>, step: Step<C>) {
    match step
    case Take(n) => IsNext(s.f, n) && |InFlight(s.f)| < workers
    case Discover(n, _, _, _, mint) =>
      && n in InFlight(s.f) && n !in s.expanded && mint !in s.f.cells
      && (p.maxDepth == 0 || PageOf(s.f, n).depth < p.maxDepth)
    case Done(n) => n in InFlight(s.f)
  }

  function Without<C>(items: seq<Item<C>>, n: nat): seq<Item<C>>
    requires n in Counters(items)
  {
    items[..IndexOf(items, n)] + items[IndexOf(items, n) + 1..]
  }

  function Copies<C(==)>(c: Option<C>, n: nat): multiset<C> {
    if c.None? then multiset{} else multiset{}[c.value := n]
  }

  function Discovered<C(==)>(p: Policy, s: Crawl<C>, step: Step<C>): Frontier<C>
    requires step.Discover? && step.page in Counters(s.f.pending)
  {
    EnqueueLinks(p, s.f, PageOf(s.f, step.page), step.domain, step.links, step.backpressured, step.mint)
  }

  /** What a discovery step adds, for the pages `born` it appends to the pending list. */
  ghost predicate Added<C(!new)>(p: Policy, s: Crawl<C>, step: Step<C>, born: seq<Item<C>>)
    requires step.Discover? && step.page in Counters(s.f.pending)
  {
    var page, f' := PageOf(s.f, step.page), Discovered(p, s, step);
    && Grown(p, s.f, f', born)
    && Children(p, page, step.mint, born)
    && Paid(p, page, s.f, f', born)
    && (forall i :: 0 <= i < |born| && born[i].chain == Some(step.mint) ==> step.mint in f'.cells)
    && Keys(p, born) <= set i | 0 <= i < |step.links| :: p.key(step.links[i].url)
  }

  /** The pages a discovery step enqueues: what it appends to the pending list. */
  ghost function NewPages<C(!new)>(p: Policy, s: Crawl<C>, step: Step<C>): (born: seq<Item<C>>)
    requires step.Discover? && step.page in Counters(s.f.pending) && step.mint !in s.f.cells
    ensures Added(p, s, step, born)
  {
    assert exists b :: Added(p, s, step, b) by {
      var b := EnqueueLinksAdds(p, s.f, PageOf(s.f, step.page), step.domain, step.links, step.backpressured, step.mint);
      assert Added(p, s, step, b);
    }
    var b :| Added(p, s, step, b);
    b
  }

  ghost function Apply<C(!new)>(p: Policy, workers: nat, s: Crawl<C>, step: Step<C>): Crawl<C>
    requires Enabled(p, workers, s, step)
  {
    match step
    case Take(n) => s.(f := s.f.(queued := s.f.queued - {n}), gets := s.gets + 1)
    case Done(n) => s.(f := s.f.(pending := Without(s.f.pending, n), unfinished := if s.f.unfinished > 0 then s.f.unfinished - 1 else 0),
                       acks := s.acks + 1)
    case Discover(n, _, _, _, _) =>
      var born := NewPages(p, s, step);
      s.(f := Discovered(p, s, step),
         expanded := s.expanded + {n},
         born := s.born + born,
         structural := s.structural + Copies(PageOf(s.f, n).chain, Structural(born)))
  }

  ghost predicate Legal<C(!new)>(p: Policy, workers: nat, s: Crawl<C>, steps: seq<Step<C>>)
    decreases |steps|, 0
  {
    steps == [] || (Legal(p, workers, s, steps[..|steps| - 1])
                    && Enabled(p, workers, Run(p, workers, s, steps[..|steps| - 1]), steps[|steps| - 1]))
  }

  ghost function Run<C(!new)>(p: Policy, workers: nat, s: Crawl<C>, steps: seq<Step<C>>): Crawl<C>
    requires Legal(p, workers, s, steps)
    decreases |steps|, 1
  {
    if steps == [] then s
    else Apply(p, workers, Run(p, workers, s, steps[..|steps| - 1]), steps[|steps| - 1])
  }

  // ---- the books ----

  ghost predicate Ascending<C(!new)>(items: seq<Item<C>>, last: nat) {
    && (forall i, j :: 0 <= i < j < |items| ==> items[i].counter < items[j].counter)
    && (forall i :: 0 <= i < |items| ==> items[i].counter <= last)
  }

  /** Every page but a seed has a visited key, and no two of them the same one. */
  ghost predicate KeysApart<C(!new)>(p: Policy, items: seq<Item<C>>, visited: set<string>) {
    && (forall i :: 0 <= i < |items| && !items[i].isSeed ==> p.key(items[i].url) in visited)
    && (forall i, j :: 0 <= i < j < |items| && !items[i].isSeed && !items[j].isSeed ==>
          p.key(items[i].url) != p.key(items[j].url))
  }

  /**
   pending is exactly the queued and the in-flight pages, the queue's unfinished count
   is its size, each get has been or will be acknowledged once, and no two pages other
   than seeds ever had the same key.
   */
  ghost predicate Books<C(!new)>(p: Policy, s: Crawl<C>) {
    && Ascending(s.f.pending, s.f.counter) && Ascending(s.born, s.f.counter)
    && (forall i :: 0 <= i < |s.f.pending| ==> s.f.pending[i] in s.born)
    && s.f.queued <= Counters(s.f.pending)
    && s.f.unfinished == |s.f.pending|
    && s.gets == s.acks + |InFlight(s.f)|
    && KeysApart(p, s.born, s.f.visited)
  }

  lemma {:induction false} CountersSize<C(!new)>(items: seq<Item<C>>, last: nat)
    requires Ascending(items, last)
    ensures |Counters(items)| == |items|
  {
    if items != [] {
      var init, end := items[..|items| - 1], items[|items| - 1];
      CountersSize(init, last);
      assert items == init + [end];
      JoinedCounters(init, [end]);
      assert [end][0] == end;
      assert Counters([end]) == {end.counter};
      assert end.counter !in Counters(init);
    }
  }

  lemma CutCounters<C(!new)>(front: seq<Item<C>>, item: Item<C>, end: seq<Item<C>>)
    requires item.counter !in Counters(front) && item.counter !in Counters(end)
    ensures Counters(front + end) == Counters(front + ([item] + end)) - {item.counter}
  {
    JoinedCounters(front, [item] + end);
    JoinedCounters([item], end);
    JoinedCounters(front, end);
    assert [item][0] == item;
    assert Counters([item]) == {item.counter};
  }

  lemma WithoutIsCut<C(!new)>(items: seq<Item<C>>, n: nat) returns (k: nat)
    requires n in Counters(items)
    ensures k < |items| && items[k].counter == n && Without(items, n) == items[..k] + items[k + 1..]
    ensures |Without(items, n)| == |items| - 1
    ensures forall i :: 0 <= i < |items| - 1 ==> Without(items, n)[i] == items[if i < k then i else i + 1]
    ensures items == items[..k] + ([items[k]] + items[k + 1..])
  {
    k := IndexOf(items, n);
  }

  lemma WithoutCounters<C(!new)>(items: seq<Item<C>>, n: nat, last: nat)
    requires Ascending(items, last) && n in Counters(items)
    ensures Ascending(Without(items, n), last)
    ensures Counters(Without(items, n)) == Counters(items) - {n}
    ensures |Without(items, n)| == |items| - 1
    ensures forall i :: 0 <= i < |Without(items, n)| ==> Without(items, n)[i] in items
  {
    var k := WithoutIsCut(items, n);
    CutCounters(items[..k], items[k], items[k + 1..]);
  }

  lemma AscendingAppend<C(!new)>(items: seq<Item<C>>, born: seq<Item<C>>, last: nat)
    requires Ascending(items, last)
    requires forall i :: 0 <= i < |born| ==> born[i].counter == last + 1 + i
    ensures Ascending(items + born, last + |born|)
  {
    var all := items + born;
    forall i, j | 0 <= i < j < |all| ensures all[i].counter < all[j].counter {
      assert all[j].counter == if j < |items| then items[j].counter else born[j - |items|].counter;
      assert all[i].counter == if i < |items| then items[i].counter else born[i - |items|].counter;
    }
  }

  /** Appending newly enqueued pages keeps the pending list, the queue and the workers consistent. */
  lemma GrowthKeepsQueue<C(!new)>(p: Policy, f: Frontier<C>, f': Frontier<C>, born: seq<Item<C>>)
    requires Ascending(f.pending, f.counter) && f.queued <= Counters(f.pending) && f.unfinished == |f.pending|
    requires Grown(p, f, f', born)
    ensures Ascending(f'.pending, f'.counter) && InFlight(f') == InFlight(f)
    ensures f'.queued <= Counters(f'.pending) && f'.unfinished == |f'.pending|
  {
    AscendingAppend(f.pending, born, f.counter);
    JoinedCounters(f.pending, born);
    forall m | m in Counters(born) ensures m !in Counters(f.pending) {
      var i :| 0 <= i < |born| && born[i].counter == m;
    }
  }

  /** New pages bring keys that nobody had visited. */
  lemma GrowthKeepsKeysApart<C(!new)>(p: Policy, history: seq<Item<C>>, f: Frontier<C>, f': Frontier<C>, born: seq<Item<C>>)
    requires KeysApart(p, history, f.visited) && Grown(p, f, f', born)
    ensures KeysApart(p, history + born, f'.visited)
  {
    var all, n := history + born, |history|;
    forall i | 0 <= i < |all| && !all[i].isSeed ensures p.key(all[i].url) in f'.visited {
      if i >= n {
        assert p.key(born[i - n].url) in Keys(p, born);
      }
    }
    forall i, j | 0 <= i < j < |all| && !all[i].isSeed && !all[j].isSeed ensures p.key(all[i].url) != p.key(all[j].url) {
      if j < n {
        assert all[i] == history[i] && all[j] == history[j];
      } else if i < n {
        assert all[i] == history[i] && all[j] == born[j - n];
      } else {
        assert all[i] == born[i - n] && all[j] == born[j - n];
      }
    }
  }

  lemma BooksGrow<C(!new)>(p: Policy, s: Crawl<C>, s': Crawl<C>, born: seq<Item<C>>)
    requires Books(p, s) && Grown(p, s.f, s'.f, born)
    requires s'.born == s.born + born && s'.gets == s.gets && s'.acks == s.acks
    ensures Books(p, s')
  {
    GrowthKeepsQueue(p, s.f, s'.f, born);
    AscendingAppend(s.born, born, s.f.counter);
    GrowthKeepsKeysApart(p, s.born, s.f, s'.f, born);
    forall i | 0 <= i < |s'.f.pending| ensures s'.f.pending[i] in s'.born {
      if i < |s.f.pending| {
        assert s'.f.pending[i] == s.f.pending[i];
      } else {
        assert s'.f.pending[i] == born[i - |s.f.pending|];
      }
    }
  }

  lemma DiscoverKeepsBooks<C(!new)>(p: Policy, workers: nat, s: Crawl<C>, step: Step<C>)
    requires Enabled(p, workers, s, step) && Books(p, s) && step.Discover?
    ensures Books(p, Apply(p, workers, s, step))
  {
    var born := NewPages(p, s, step);
    assert Added(p, s, step, born);
    BooksGrow(p, s, Apply(p, workers, s, step), born);
  }

  lemma DoneKeepsBooks<C(!new)>(p: Policy, workers: nat, s: Crawl<C>, step: Step<C>)
    requires Enabled(p, workers, s, step) && Books(p, s) && step.Done?
    ensures Books(p, Apply(p, workers, s, step))
  {
    var s' := Apply(p, workers, s, step);
    WithoutCounters(s.f.pending, step.page, s.f.counter);
    assert InFlight(s'.f) == InFlight(s.f) - {step.page};
  }

  lemma StepKeepsBooks<C(!new)>(p: Policy, workers: nat, s: Crawl<C>, step: Step<C>)
    requires Enabled(p, workers, s, step) && Books(p, s)
    ensures Books(p, Apply(p, workers, s, step))
  {
    match step
    case Discover(_, _, _, _, _) => DiscoverKeepsBooks(p, workers, s, step);
    case Done(_) => DoneKeepsBooks(p, workers, s, step);
    case Take(n) =>
      assert InFlight(Apply(p, workers, s, step).f) == InFlight(s.f) + {n};
  }

  /** Every run keeps the books, whether it started from seeds or from a rebuilt checkpoint. */
  lemma {:induction false} RunKeepsBooks<C(!new)>(p: Policy, workers: nat, s: Crawl<C>, steps: seq<Step<C>>)
    requires Books(p, s) && Legal(p, workers, s, steps)
    ensures Books(p, Run(p, workers, s, steps))
  {
    if steps != [] {
      RunKeepsBooks(p, workers, s, steps[..|steps| - 1]);
      StepKeepsBooks(p, workers, Run(p, workers, s, steps[..|steps| - 1]), steps[|steps| - 1]);
    }
  }

  // ---- the crawl drains ----

  /** Keys still unvisited weigh four, a pending page one, plus one while unexpanded and one while queued. */
  ghost function Potential<C(!new)>(s: Crawl<C>, universe: set<string>): nat {
    4 * |universe - s.f.visited| + |s.f.pending| + |Counters(s.f.pending) - s.expanded| + |s.f.queued|
  }

  /** Every link the step brings has its key in the universe. */
  ghost predicate Within<C(!new)>(p: Policy, step: Step<C>, universe: set<string>) {
    step.Discover? ==> forall i :: 0 <= i < |step.links| ==> p.key(step.links[i].url) in universe
  }

  lemma {:induction false} KeysSize<C(!new)>(p: Policy, items: seq<Item<C>>)
    requires forall i, j :: 0 <= i < j < |items| ==> p.key(items[i].url) != p.key(items[j].url)
    ensures |Keys(p, items)| == |items|
  {
    if items == [] {
      assert Keys(p, items) == {};
    } else {
      var init, last := items[..|items| - 1], items[|items| - 1];
      KeysSize(p, init);
      assert items == init + [last];
      JoinedKeys(p, init, [last]);
      assert [last][0] == last;
      assert Keys(p, [last]) == {p.key(last.url)};
      assert p.key(last.url) !in Keys(p, init);
    }
  }

  /** New pages cost four each in unvisited keys and add three each; expanding their parent adds nothing. */
  lemma GrowthLowersPotential<C(!new)>(p: Policy, s: Crawl<C>, s': Crawl<C>, born: seq<Item<C>>, page: nat, universe: set<string>)
    requires Grown(p, s.f, s'.f, born) && s'.expanded == s.expanded + {page}
    requires page in Counters(s.f.pending) - s.expanded && Keys(p, born) <= universe
    ensures Potential(s', universe) < Potential(s, universe)
  {
    var n, keys := |born|, Keys(p, born);
    KeysSize(p, born);
    assert universe - s'.f.visited == (universe - s.f.visited) - keys;
    assert keys <= universe - s.f.visited;
    assert |universe - s'.f.visited| == |universe - s.f.visited| - n;
    CountersSize(born, s'.f.counter);
    JoinedCounters(s.f.pending, born);
    var before := Counters(s.f.pending) - s.expanded;
    SubsetSize(Counters(s'.f.pending) - s'.expanded, (before - {page}) + Counters(born));
    assert |s'.f.queued| <= |s.f.queued| + |Counters(born)|;
  }

  lemma DiscoverLowersPotential<C(!new)>(p: Policy, workers: nat, s: Crawl<C>, step: Step<C>, universe: set<string>)
    requires Enabled(p, workers, s, step) && Books(p, s) && step.Discover? && Within(p, step, universe)
    ensures Potential(Apply(p, workers, s, step), universe) < Potential(s, universe)
  {
    var born := NewPages(p, s, step);
    assert Keys(p, born) <= universe;
    GrowthLowersPotential(p, s, Apply(p, workers, s, step), born, step.page, universe);
  }

  lemma StepLowersPotential<C(!new)>(p: Policy, workers: nat, s: Crawl<C>, step: Step<C>, universe: set<string>)
    requires Enabled(p, workers, s, step) && Books(p, s) && Within(p, step, universe)
    ensures Potential(Apply(p, workers, s, step), universe) < Potential(s, universe)
  {
    var s' := Apply(p, workers, s, step);
    match step
    case Discover(_, _, _, _, _) => DiscoverLowersPotential(p, workers, s, step, universe);
    case Take(n) =>
    case Done(n) =>
      WithoutCounters(s.f.pending, n, s.f.counter);
      SubsetSize(Counters(s'.f.pending) - s'.expanded, Counters(s.f.pending) - s.expanded);
  }

  /** Over a finite universe of keys no run is longer than the potential it starts with. */
  lemma {:induction false} RunsAreFinite<C(!new)>(p: Policy, workers: nat, s: Crawl<C>, steps: seq<Step<C>>, universe: set<string>)
    requires Books(p, s) && Legal(p, workers, s, steps)
    requires forall i :: 0 <= i < |steps| ==> Within(p, steps[i], universe)
    ensures |steps| + Potential(Run(p, workers, s, steps), universe) <= Potential(s, universe)
  {
    if steps != [] {
      var before := Run(p, workers, s, steps[..|steps| - 1]);
      RunsAreFinite(p, workers, s, steps[..|steps| - 1], universe);
      RunKeepsBooks(p, workers, s, steps[..|steps| - 1]);
      StepLowersPotential(p, workers, before, steps[|steps| - 1], universe);
    }
  }

  /** A non-empty queue has a unique head. */
  lemma {:induction false} NextExists<C(!new)>(f: Frontier<C>, among: set<nat>) returns (n: nat)
    requires Ascending(f.pending, f.counter) && among <= Counters(f.pending) && among != {}
    ensures n in among && forall m :: m in among && m != n ==> Before(PageOf(f, n), PageOf(f, m))
    decreases |among|
  {
    var x := Member(among);
    var rest := among - {x};
    if rest == {} {
      assert among == {x};
      n := x;
    } else {
      var m := NextExists(f, rest);
      n := if Before(PageOf(f, x), PageOf(f, m)) then x else m;
    }
  }

  /** While a page is pending some worker can move, so a run that cannot be continued has drained the queue. */
  lemma CrawlProgresses<C(!new)>(p: Policy, workers: nat, s: Crawl<C>)
    requires Books(p, s) && workers > 0
    ensures s.f.unfinished > 0 <==> exists step: Step<C> :: !step.Discover? && Enabled(p, workers, s, step)
  {
    if s.f.unfinished > 0 {
      CountersSize(s.f.pending, s.f.counter);
      if InFlight(s.f) != {} {
        var n := Member(InFlight(s.f));
        assert Enabled(p, workers, s, Done(n));
      } else {
        assert s.f.queued == Counters(s.f.pending);
        var n := NextExists(s.f, s.f.queued);
        assert Enabled(p, workers, s, Take(n));
      }
    }
  }

  // ---- how runs start ----

  /** A run starting from this frontier: nothing followed yet, every pending page to be processed. */
  function Start<C>(f: Frontier<C>): Crawl<C> {
    Crawl(f, {}, f.pending, multiset{}, 0, 0)
  }

  function SeedAll<C>(p: Policy, f: Frontier<C>, seeds: seq<(string, Option<int>)>): Frontier<C> {
    if seeds == [] then f
    else
      var seed := seeds[|seeds| - 1];
      Enqueue(p, SeedAll(p, f, seeds[..|seeds| - 1]), seed.0, 0, seed.1, true, 0, None)
  }

  function NoPages<C>(bootstrap: set<string>): Frontier<C> {
    Frontier([], {}, 0, bootstrap, 0, 0, map[])
  }

  ghost predicate SeedFrontier<C(!new)>(f: Frontier<C>) {
    && Ascending(f.pending, f.counter) && f.queued == Counters(f.pending) && f.unfinished == |f.pending| && f.cells == map[]
    && forall i :: 0 <= i < |f.pending| ==> f.pending[i].isSeed && f.pending[i].depth == 0 && f.pending[i].chain.None?
  }

  lemma {:induction false} SeedsEnqueued<C(!new)>(p: Policy, bootstrap: set<string>, seeds: seq<(string, Option<int>)>)
    ensures SeedFrontier(SeedAll<C>(p, NoPages(bootstrap), seeds))
  {
    if seeds != [] {
      var before := SeedAll<C>(p, NoPages(bootstrap), seeds[..|seeds| - 1]);
      SeedsEnqueued<C>(p, bootstrap, seeds[..|seeds| - 1]);
      var after := SeedAll<C>(p, NoPages(bootstrap), seeds);
      if after.counter != before.counter {
        var item := after.pending[|before.pending|];
        AscendingAppend(before.pending, [item], before.counter);
        JoinedCounters(before.pending, [item]);
        assert [item][0] == item;
        assert Counters([item]) == {item.counter};
      }
    }
  }

  /** A fresh run keeps the books from the start. */
  lemma FreshBooks<C(!new)>(p: Policy, f: Frontier<C>)
    requires SeedFrontier(f)
    ensures Books(p, Start(f))
  {
    assert InFlight(f) == {};
  }
}
