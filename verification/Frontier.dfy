/**
 The crawl frontier: pending pages, visited keys and the budget cells that the pages
 of one pagination chain share. The type parameter C is the identity of a cell: an
 object in the running engine, anything else where only the aliasing matters.
 */
module Frontier {
  import opened Prelude

  datatype RawLink = RawLink(url: string, text: string, rel: seq<string>)

  /** The configuration and the fixed URL classifiers. maxLinks gives the link cap of a depth; 0 or less is no cap. */
  datatype Policy = Policy(
    key: string -> string,
    skippable: string -> bool,
    onTarget: string -> bool,
    urlPriority: string -> nat,
    isPriority: (string, string) -> bool,
    isPagination: RawLink -> bool,
    paginationOn: bool,
    maxDepth: int,
    maxLinks: nat -> int,
    maxPages: int,
    maxChainChildren: int)

  datatype Item<C> = Item(
    priority: nat,
    counter: nat,
    url: string,
    depth: nat,
    domain: Option<int>,
    isSeed: bool,
    hops: nat,
    chain: Option<C>)

  /** pending keeps insertion order; queued holds the counters not yet taken by a worker. */
  datatype Frontier<C> = Frontier(
    pending: seq<Item<C>>,
    queued: set<nat>,
    unfinished: nat,
    visited: set<string>,
    counter: nat,
    skipped: nat,
    cells: map<C, nat>)

  /** The budget spent in a cell. */
  function Spent<C(==)>(f: Frontier<C>, c: C): nat {
    if c in f.cells then f.cells[c] else 0
  }

  function Skip<C>(f: Frontier<C>, n: nat): Frontier<C> {
    f.(skipped := f.skipped + n)
  }

  function Enqueue<C>(p: Policy, f: Frontier<C>, url: string, depth: nat, domain: Option<int>, isSeed: bool,
                      hops: nat, chain: Option<C>): Frontier<C> {
    if p.skippable(url) || !p.onTarget(url) || p.key(url) in f.visited then
      Skip(f, 1)
    else
      var item := Item(p.urlPriority(url), f.counter + 1, url, depth, domain, isSeed, hops, chain);
      f.(pending := f.pending + [item],
         queued := f.queued + {item.counter},
         unfinished := f.unfinished + 1,
         visited := if isSeed then f.visited else f.visited + {p.key(url)},
         counter := f.counter + 1)
  }

  // ---- pagination target ----

  predicate SaysNext(link: RawLink) {
    "next" in link.rel
  }

  /** The accepted links of a page, in document order. */
  function Accepted(p: Policy, links: seq<RawLink>): seq<RawLink> {
    if links == [] then []
    else Accepted(p, links[..|links| - 1]) + if p.isPagination(links[|links| - 1]) then [links[|links| - 1]] else []
  }

  /** The first link of a list that says "next", or else the first link. */
  function Preferred(links: seq<RawLink>): Option<string> {
    if links == [] then None
    else if exists i :: 0 <= i < |links| && SaysNext(links[i]) then Some(FirstNext(links).url)
    else Some(links[0].url)
  }

  function FirstNext(links: seq<RawLink>): (link: RawLink)
    requires exists i :: 0 <= i < |links| && SaysNext(links[i])
    ensures link in links && SaysNext(link)
    ensures exists i :: 0 <= i < |links| && link == links[i] && forall j :: 0 <= j < i ==> !SaysNext(links[j])
  {
    if SaysNext(links[0]) then links[0]
    else
      var i :| 0 <= i < |links| && SaysNext(links[i]);
      assert SaysNext(links[1..][i - 1]);
      var link := FirstNext(links[1..]);
      assert exists i :: 0 <= i < |links| && link == links[i] && forall j :: 0 <= j < i ==> !SaysNext(links[j]) by {
        var k :| 0 <= k < |links[1..]| && link == links[1..][k] && forall j :: 0 <= j < k ==> !SaysNext(links[1..][j]);
        assert link == links[k + 1];
        forall j | 0 <= j < k + 1 ensures !SaysNext(links[j]) {
          if j > 0 {
            assert links[j] == links[1..][j - 1];
          }
        }
      }
      link
  }

  function Target(p: Policy, links: seq<RawLink>): Option<string> {
    if p.paginationOn then Preferred(Accepted(p, links)) else None
  }

  // ---- link discovery on one page ----

  /** State of the link loop: the frontier, links counted against the page cap, and whether the loop broke off. */
  datatype Scan<C> = Scan(f: Frontier<C>, added: nat, stopped: bool)

  /** What becomes of a link: skipped (breaking off the loop or not), the next page of a chain, or a child page. */
  datatype Verdict = SkipLink(stop: bool) | NextPage | ChildPage

  /** The decision about one link; `budget` is what the page's own cell has spent, None off-chain. */
  function Judge(p: Policy, pageUrl: string, depth: nat, isSeed: bool, hops: nat, budget: Option<nat>,
                 target: Option<string>, visited: set<string>, added: nat, link: RawLink): Verdict {
    var isPag := target == Some(link.url);
    if !isPag && budget.None? && p.maxLinks(depth) > 0 && added >= p.maxLinks(depth) then
      SkipLink(target.None?)
    else if p.skippable(link.url) || !p.onTarget(link.url) || p.key(link.url) in visited then
      SkipLink(false)
    else if isPag then
      if hops >= p.maxPages then SkipLink(false) else NextPage
    else if !isSeed && !p.isPriority(pageUrl, "") && !p.isPriority(link.url, link.text) then
      SkipLink(false)
    else if budget.Some? && budget.value >= p.maxChainChildren then
      SkipLink(false)
    else
      ChildPage
  }

  function Budget<C(==)>(f: Frontier<C>, page: Item<C>): Option<nat> {
    if page.chain.None? then None else Some(Spent(f, page.chain.value))
  }

  function Pay<C(==)>(f: Frontier<C>, c: C): Frontier<C> {
    f.(cells := f.cells[c := Spent(f, c) + 1])
  }

  /** The next page of the chain shares the page's cell, or the fresh one when a chain starts here. */
  function FollowChain<C(==)>(p: Policy, page: Item<C>, domain: Option<int>, mint: C, s: Scan<C>, url: string): Scan<C> {
    s.(f := Enqueue(p, s.f, url, page.depth, domain, false, page.hops + 1,
                    Some(if page.chain.Some? then page.chain.value else mint)))
  }

  /** A child page is paid from the page's cell, or counts against the page's link cap when it has none. */
  function FollowChild<C(==)>(p: Policy, page: Item<C>, domain: Option<int>, s: Scan<C>, url: string): Scan<C> {
    if page.chain.Some? then
      s.(f := Enqueue(p, Pay(s.f, page.chain.value), url, page.depth + 1, domain, false, page.hops, None))
    else
      s.(f := Enqueue(p, s.f, url, page.depth + 1, domain, false, page.hops, None), added := s.added + 1)
  }

  function Drop<C>(s: Scan<C>, stop: bool): Scan<C> {
    Scan(Skip(s.f, 1), s.added, stop)
  }

  /** What happens to one link of the page. */
  function ScanLink<C(==)>(p: Policy, page: Item<C>, domain: Option<int>, target: Option<string>, mint: C,
                           s: Scan<C>, link: RawLink): Scan<C> {
    if s.stopped then s
    else
      match Judge(p, page.url, page.depth, page.isSeed, page.hops, Budget(s.f, page), target, s.f.visited, s.added, link)
      case SkipLink(stop) => Drop(s, stop)
      case NextPage => FollowChain(p, page, domain, mint, s, link.url)
      case ChildPage => FollowChild(p, page, domain, s, link.url)
  }

  function ScanLinks<C(==)>(p: Policy, page: Item<C>, domain: Option<int>, target: Option<string>, mint: C,
                            s: Scan<C>, links: seq<RawLink>): Scan<C> {
    if links == [] then s
    else ScanLink(p, page, domain, target, mint,
                  ScanLinks(p, page, domain, target, mint, s, links[..|links| - 1]), links[|links| - 1])
  }

  function ScanStart<C>(f: Frontier<C>, mint: C): Scan<C> {
    Scan(f.(cells := f.cells[mint := 0]), 0, false)
  }

  /** Link discovery from one fetched page. */
  function EnqueueLinks<C(==)>(p: Policy, f: Frontier<C>, page: Item<C>, domain: Option<int>, links: seq<RawLink>,
                               backpressured: bool, mint: C): Frontier<C> {
    if backpressured then Skip(f, |links|)
    else ScanLinks(p, page, domain, Target(p, links), mint, ScanStart(f, mint), links).f
  }

  // ---- what link discovery adds ----

  function Keys<C>(p: Policy, items: seq<Item<C>>): set<string> {
    set i | 0 <= i < |items| :: p.key(items[i].url)
  }

  function Counters<C>(items: seq<Item<C>>): set<nat> {
    set i | 0 <= i < |items| :: items[i].counter
  }

  /** How many of the items carry no cell. */
  function Structural<C>(items: seq<Item<C>>): nat {
    if items == [] then 0
    else Structural(items[..|items| - 1]) + if items[|items| - 1].chain.None? then 1 else 0
  }

  /** The frontier grew by exactly the new items: fresh counters, fresh pairwise different keys. */
  ghost predicate Grown<C(!new)>(p: Policy, f: Frontier<C>, f': Frontier<C>, born: seq<Item<C>>) {
    && f'.pending == f.pending + born
    && f'.queued == f.queued + Counters(born)
    && f'.unfinished == f.unfinished + |born|
    && f'.visited == f.visited + Keys(p, born)
    && f'.counter == f.counter + |born|
    && (forall i :: 0 <= i < |born| ==>
          born[i].counter == f.counter + 1 + i && !born[i].isSeed && p.key(born[i].url) !in f.visited)
    && (forall i, j :: 0 <= i < j < |born| ==> p.key(born[i].url) != p.key(born[j].url))
  }

  /** What a page may give birth to: at most one next page of its chain, and otherwise children one level deeper. */
  ghost predicate Children<C(!new)>(p: Policy, page: Item<C>, mint: C, born: seq<Item<C>>) {
    && (forall i :: 0 <= i < |born| ==>
          if born[i].chain.None? then born[i].depth == page.depth + 1 && born[i].hops == page.hops
          else born[i].depth == page.depth && born[i].hops == page.hops + 1 <= p.maxPages
               && born[i].chain.value == if page.chain.Some? then page.chain.value else mint)
    && (forall i, j :: 0 <= i < j < |born| ==> born[i].chain.None? || born[j].chain.None?)
  }

  ghost predicate Paid<C(!new)>(p: Policy, page: Item<C>, f: Frontier<C>, f': Frontier<C>, born: seq<Item<C>>) {
    && (forall c :: page.chain != Some(c) ==> Spent(f', c) == Spent(f, c))
    && (page.chain.Some? ==>
          var c := page.chain.value;
          Spent(f', c) == Spent(f, c) + Structural(born)
          && (Structural(born) > 0 ==> Spent(f', c) <= p.maxChainChildren))
    && f.cells.Keys <= f'.cells.Keys
  }

  lemma JoinedCounters<C(!new)>(a: seq<Item<C>>, b: seq<Item<C>>)
    ensures Counters(a + b) == Counters(a) + Counters(b)
  {
    forall m | m in Counters(a) + Counters(b) ensures m in Counters(a + b) {
      if m in Counters(a) {
        var i :| 0 <= i < |a| && a[i].counter == m;
        assert (a + b)[i].counter == m;
      } else {
        var i :| 0 <= i < |b| && b[i].counter == m;
        assert (a + b)[|a| + i].counter == m;
      }
    }
  }

  lemma JoinedKeys<C(!new)>(p: Policy, a: seq<Item<C>>, b: seq<Item<C>>)
    ensures Keys(p, a + b) == Keys(p, a) + Keys(p, b)
  {
    forall m | m in Keys(p, a) + Keys(p, b) ensures m in Keys(p, a + b) {
      if m in Keys(p, a) {
        var i :| 0 <= i < |a| && p.key(a[i].url) == m;
        assert p.key((a + b)[i].url) == m;
      } else {
        var i :| 0 <= i < |b| && p.key(b[i].url) == m;
        assert p.key((a + b)[|a| + i].url) == m;
      }
    }
    forall m | m in Keys(p, a + b) ensures m in Keys(p, a) + Keys(p, b) {
      var i :| 0 <= i < |a + b| && p.key((a + b)[i].url) == m;
      if i < |a| {
        assert p.key(a[i].url) == m;
      } else {
        assert p.key(b[i - |a|].url) == m;
      }
    }
  }

  lemma AppendBorn<C(!new)>(p: Policy, f: Frontier<C>, g: Frontier<C>, h: Frontier<C>, born: seq<Item<C>>, item: Item<C>)
    requires Grown(p, f, g, born)
    requires h.pending == g.pending + [item] && h.queued == g.queued + {item.counter}
    requires h.unfinished == g.unfinished + 1 && h.visited == g.visited + {p.key(item.url)}
    requires h.counter == g.counter + 1 == item.counter && !item.isSeed && p.key(item.url) !in g.visited
    ensures Grown(p, f, h, born + [item])
  {
    assert f.pending + (born + [item]) == h.pending;
    JoinedCounters(born, [item]);
    JoinedKeys(p, born, [item]);
    assert [item][0] == item;
    assert Counters([item]) == {item.counter} && Keys(p, [item]) == {p.key(item.url)};
    forall i | 0 <= i < |born| ensures p.key(born[i].url) in g.visited {
      assert p.key(born[i].url) in Keys(p, born);
    }
  }

  /** The born items after the loop has seen some of the links. */
  ghost predicate ScanInv<C(!new)>(p: Policy, f: Frontier<C>, page: Item<C>, mint: C, target: Option<string>,
                                   s: Scan<C>, born: seq<Item<C>>) {
    && Grown(p, f, s.f, born)
    && Children(p, page, mint, born)
    && Paid(p, page, f, s.f, born)
    && (forall i :: 0 <= i < |born| && born[i].chain.Some? ==> target == Some(born[i].url))
  }

  /** A link that is not skipped puts this one item at the end of the frontier. */
  ghost predicate Admits<C(!new)>(p: Policy, page: Item<C>, mint: C, target: Option<string>, g: Frontier<C>, h: Frontier<C>,
                                  item: Item<C>) {
    && h.pending == g.pending + [item] && h.queued == g.queued + {item.counter}
    && h.unfinished == g.unfinished + 1 && h.visited == g.visited + {p.key(item.url)}
    && h.counter == g.counter + 1 == item.counter && !item.isSeed && p.key(item.url) !in g.visited
    && (if item.chain.Some? then
          && h.cells == g.cells && target == Some(item.url)
          && item.depth == page.depth && item.hops == page.hops + 1 <= p.maxPages
          && item.chain.value == if page.chain.Some? then page.chain.value else mint
        else
          && item.depth == page.depth + 1 && item.hops == page.hops && target != Some(item.url)
          && h.cells == (if page.chain.Some? then g.cells[page.chain.value := Spent(g, page.chain.value) + 1] else g.cells)
          && (page.chain.Some? ==> Spent(g, page.chain.value) < p.maxChainChildren))
  }

  lemma ScanLinkShape<C(!new)>(p: Policy, page: Item<C>, domain: Option<int>, mint: C, target: Option<string>,
                               s: Scan<C>, link: RawLink)
    ensures var s' := ScanLink(p, page, domain, target, mint, s, link);
            if s'.f.counter == s.f.counter then s'.f == s.f.(skipped := s'.f.skipped)
            else s'.f.pending != [] && s'.f.pending[|s'.f.pending| - 1].url == link.url
                 && Admits(p, page, mint, target, s.f, s'.f, s'.f.pending[|s'.f.pending| - 1])
  {
  }

  lemma AppendChild<C(!new)>(p: Policy, page: Item<C>, mint: C, target: Option<string>,
                             g: Frontier<C>, h: Frontier<C>, born: seq<Item<C>>, item: Item<C>)
    requires Children(p, page, mint, born) && Admits(p, page, mint, target, g, h, item)
    requires forall i :: 0 <= i < |born| ==> p.key(born[i].url) in g.visited
    requires forall i :: 0 <= i < |born| && born[i].chain.Some? ==> target == Some(born[i].url)
    ensures Children(p, page, mint, born + [item])
  {
    var all := born + [item];
    if item.chain.Some? {
      forall i | 0 <= i < |born| ensures born[i].chain.None? {
        assert p.key(born[i].url) != p.key(item.url);
      }
    }
  }

  lemma AppendPaid<C(!new)>(p: Policy, f: Frontier<C>, page: Item<C>, mint: C, target: Option<string>,
                            g: Frontier<C>, h: Frontier<C>, born: seq<Item<C>>, item: Item<C>)
    requires Paid(p, page, f, g, born) && Admits(p, page, mint, target, g, h, item)
    ensures Paid(p, page, f, h, born + [item])
  {
    assert (born + [item])[..|born|] == born;
  }

  lemma AdmitKeepsScanInv<C(!new)>(p: Policy, f: Frontier<C>, page: Item<C>, mint: C, target: Option<string>,
                                   s: Scan<C>, s': Scan<C>, born: seq<Item<C>>, item: Item<C>)
    requires ScanInv(p, f, page, mint, target, s, born)
    requires Admits(p, page, mint, target, s.f, s'.f, item)
    ensures ScanInv(p, f, page, mint, target, s', born + [item])
  {
    AppendBorn(p, f, s.f, s'.f, born, item);
    forall i | 0 <= i < |born| ensures p.key(born[i].url) in s.f.visited {
      assert p.key(born[i].url) in Keys(p, born);
    }
    AppendChild(p, page, mint, target, s.f, s'.f, born, item);
    AppendPaid(p, f, page, mint, target, s.f, s'.f, born, item);
  }

  lemma SkipKeepsScanInv<C(!new)>(p: Policy, f: Frontier<C>, page: Item<C>, mint: C, target: Option<string>,
                                  s: Scan<C>, s': Scan<C>, born: seq<Item<C>>)
    requires ScanInv(p, f, page, mint, target, s, born) && s'.f == s.f.(skipped := s'.f.skipped)
    ensures ScanInv(p, f, page, mint, target, s', born)
  {
    forall c ensures Spent(s'.f, c) == Spent(s.f, c) {}
  }

  lemma ScanLinkStep<C(!new)>(p: Policy, f: Frontier<C>, page: Item<C>, domain: Option<int>, mint: C, target: Option<string>,
                              s: Scan<C>, born: seq<Item<C>>, link: RawLink) returns (born': seq<Item<C>>)
    requires ScanInv(p, f, page, mint, target, s, born)
    ensures ScanInv(p, f, page, mint, target, ScanLink(p, page, domain, target, mint, s, link), born')
    ensures born' == born || (|born'| == |born| + 1 && born'[..|born|] == born && born'[|born|].url == link.url)
  {
    var s' := ScanLink(p, page, domain, target, mint, s, link);
    ScanLinkShape(p, page, domain, mint, target, s, link);
    if s'.f.counter == s.f.counter {
      born' := born;
      SkipKeepsScanInv(p, f, page, mint, target, s, s', born);
    } else {
      var item := s'.f.pending[|s'.f.pending| - 1];
      born' := born + [item];
      AdmitKeepsScanInv(p, f, page, mint, target, s, s', born, item);
    }
  }

  lemma {:induction false} ScanLinksInv<C(!new)>(p: Policy, f: Frontier<C>, page: Item<C>, domain: Option<int>, mint: C,
                                                 target: Option<string>, links: seq<RawLink>) returns (born: seq<Item<C>>)
    ensures ScanInv(p, f.(cells := f.cells[mint := 0]), page, mint, target,
                    ScanLinks(p, page, domain, target, mint, ScanStart(f, mint), links), born)
    ensures Keys(p, born) <= set i | 0 <= i < |links| :: p.key(links[i].url)
  {
    if links == [] {
      born := [];
      assert f.pending + [] == f.pending;
    } else {
      var shorter := links[..|links| - 1];
      var before := ScanLinksInv(p, f, page, domain, mint, target, shorter);
      born := ScanLinkStep(p, f.(cells := f.cells[mint := 0]), page, domain, mint, target,
                           ScanLinks(p, page, domain, target, mint, ScanStart(f, mint), shorter), before, links[|links| - 1]);
      forall k | k in Keys(p, born) ensures k in set i | 0 <= i < |links| :: p.key(links[i].url) {
        var i :| 0 <= i < |born| && p.key(born[i].url) == k;
        if i < |before| {
          assert born[i] == before[i];
          assert k in Keys(p, before);
          var j :| 0 <= j < |shorter| && p.key(shorter[j].url) == k;
          assert p.key(links[j].url) == k;
        } else {
          assert p.key(links[|links| - 1].url) == k;
        }
      }
    }
  }

  /** Everything link discovery does to the frontier, in terms of the pages it enqueues. */
  lemma EnqueueLinksAdds<C(!new)>(p: Policy, f: Frontier<C>, page: Item<C>, domain: Option<int>, links: seq<RawLink>,
                                  backpressured: bool, mint: C) returns (born: seq<Item<C>>)
    requires mint !in f.cells
    ensures var f' := EnqueueLinks(p, f, page, domain, links, backpressured, mint);
            && Grown(p, f, f', born) && Children(p, page, mint, born) && Paid(p, page, f, f', born)
            && (forall i :: 0 <= i < |born| && born[i].chain == Some(mint) ==> mint in f'.cells)
    ensures Keys(p, born) <= set i | 0 <= i < |links| :: p.key(links[i].url)
  {
    if backpressured {
      born := [];
      assert f.pending + [] == f.pending;
    } else {
      born := ScanLinksInv(p, f, page, domain, mint, Target(p, links), links);
      var f' := EnqueueLinks(p, f, page, domain, links, backpressured, mint);
      var f0 := f.(cells := f.cells[mint := 0]);
      forall c ensures Spent(f0, c) == Spent(f, c) {}
      assert mint in f0.cells;
    }
  }
}
