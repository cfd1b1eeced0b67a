/**
 Which links of a page are followed, stated without the link loop: a link is followed exactly when it is
 wanted, no link followed before it has its key, and it is the elected pagination link or there is room
 for one more child.
 */
module Discovery {
  import opened Prelude
  import opened Frontier
  import opened Crawl

  /** One page being expanded: the frontier as it is found, the elected pagination link and the page's links. */
  datatype Visit<C> = Visit(p: Policy, f: Frontier<C>, page: Item<C>, target: Option<string>, links: seq<RawLink>)

  function KeyOf<C>(v: Visit<C>, i: nat): string
    requires i < |v.links|
  {
    v.p.key(v.links[i].url)
  }

  predicate Elected<C>(v: Visit<C>, i: nat)
    requires i < |v.links|
  {
    v.target == Some(v.links[i].url)
  }

  /** Link i leads to a page of the site that was unknown, and the rules for pagination or for children let it through. */
  predicate Wanted<C>(v: Visit<C>, i: nat)
    requires i < |v.links|
  {
    var link := v.links[i];
    && !v.p.skippable(link.url) && v.p.onTarget(link.url) && v.p.key(link.url) !in v.f.visited
    && if v.target == Some(link.url) then v.page.hops < v.p.maxPages
       else v.page.isSeed || v.p.isPriority(v.page.url, "") || v.p.isPriority(link.url, link.text)
  }

  /** Room for one more child after so many: under the link cap of the page, or in the budget of its chain. */
  ghost predicate HasRoom<C(!new)>(v: Visit<C>, children: nat) {
    if v.page.chain.None? then v.p.maxLinks(v.page.depth) <= 0 || children < v.p.maxLinks(v.page.depth)
    else Spent(v.f, v.page.chain.value) + children < v.p.maxChainChildren
  }

  ghost predicate Followed<C(!new)>(v: Visit<C>, i: nat)
    requires i < |v.links|
    decreases i, 1
  {
    && Wanted(v, i)
    && (forall j :: 0 <= j < i && KeyOf(v, j) == KeyOf(v, i) ==> !Followed(v, j))
    && (Elected(v, i) || HasRoom(v, ChildCount(v, i)))
  }

  /** The children among the first n links. */
  ghost function ChildCount<C(!new)>(v: Visit<C>, n: nat): nat
    requires n <= |v.links|
    decreases n, 0
  {
    if n == 0 then 0 else ChildCount(v, n - 1) + if Followed(v, n - 1) && !Elected(v, n - 1) then 1 else 0
  }

  /** The page that link i becomes: the next of the chain at the same depth, or a child one deeper. */
  function PageFor<C>(v: Visit<C>, i: nat, domain: Option<int>, mint: C, counter: nat): Item<C>
    requires i < |v.links|
  {
    var url := v.links[i].url;
    if v.target == Some(url) then
      Item(v.p.urlPriority(url), counter, url, v.page.depth, domain, false, v.page.hops + 1,
           Some(if v.page.chain.Some? then v.page.chain.value else mint))
    else
      Item(v.p.urlPriority(url), counter, url, v.page.depth + 1, domain, false, v.page.hops, None)
  }

  /** The pages of the followed links among the first n, in document order. */
  ghost function Pages<C(!new)>(v: Visit<C>, domain: Option<int>, mint: C, n: nat): seq<Item<C>>
    requires n <= |v.links|
  {
    if n == 0 then []
    else
      var before := Pages(v, domain, mint, n - 1);
      if Followed(v, n - 1) then before + [PageFor(v, n - 1, domain, mint, v.f.counter + |before| + 1)] else before
  }

  /** Some followed link among the first n has the key. */
  ghost predicate FollowedKey<C(!new)>(v: Visit<C>, n: nat, key: string)
    requires n <= |v.links|
  {
    exists i :: 0 <= i < n && KeyOf(v, i) == key && Followed(v, i)
  }

  lemma FollowedKeyNext<C(!new)>(v: Visit<C>, n: nat, key: string)
    requires n < |v.links|
    ensures FollowedKey(v, n + 1, key) <==> FollowedKey(v, n, key) || (KeyOf(v, n) == key && Followed(v, n))
  {
  }

  /** The children counted so far, where the engine counts them. */
  ghost predicate Counted<C(!new)>(v: Visit<C>, children: nat, s: Scan<C>) {
    if v.page.chain.None? then s.added == children
    else Spent(s.f, v.page.chain.value) == Spent(v.f, v.page.chain.value) + children
  }

  /** The link loop after n links; once it has broken off there is no room for good. */
  ghost predicate Scanned<C(!new)>(v: Visit<C>, domain: Option<int>, mint: C, n: nat, s: Scan<C>)
    requires n <= |v.links|
  {
    && s.f.pending == v.f.pending + Pages(v, domain, mint, n) && s.f.counter == v.f.counter + |Pages(v, domain, mint, n)|
    && (forall key :: key in s.f.visited <==> key in v.f.visited || FollowedKey(v, n, key))
    && Counted(v, ChildCount(v, n), s)
    && (s.stopped ==> v.page.chain.None? && v.target.None? && !HasRoom(v, s.added))
  }

  /** What the loop decides about link n, given the children counted and the keys visited so far. */
  lemma DecidesAsSaid<C(!new)>(v: Visit<C>, n: nat, s: Scan<C>, children: nat)
    requires n < |v.links| && !s.stopped && Counted(v, children, s) && children == ChildCount(v, n)
    requires KeyOf(v, n) in s.f.visited <==> KeyOf(v, n) in v.f.visited || FollowedKey(v, n, KeyOf(v, n))
    ensures var verdict := Judge(v.p, v.page.url, v.page.depth, v.page.isSeed, v.page.hops, Budget(s.f, v.page), v.target,
                                 s.f.visited, s.added, v.links[n]);
            && (verdict.SkipLink? <==> !Followed(v, n))
            && (verdict.NextPage? <==> Followed(v, n) && Elected(v, n))
            && (verdict.ChildPage? <==> Followed(v, n) && !Elected(v, n))
            && (verdict.SkipLink? && verdict.stop ==> v.page.chain.None? && v.target.None? && !HasRoom(v, children))
  {
    assert (forall j :: 0 <= j < n && KeyOf(v, j) == KeyOf(v, n) ==> !Followed(v, j)) <==> !FollowedKey(v, n, KeyOf(v, n));
  }

  /** A link that is not followed leaves everything but the count of skipped links. */
  lemma SkippedNext<C(!new)>(v: Visit<C>, domain: Option<int>, mint: C, n: nat, s: Scan<C>, s': Scan<C>)
    requires n < |v.links| && Scanned(v, domain, mint, n, s) && !Followed(v, n)
    requires s'.f == s.f.(skipped := s'.f.skipped) && s'.added == s.added
    requires s'.stopped ==> v.page.chain.None? && v.target.None? && !HasRoom(v, s.added)
    ensures Scanned(v, domain, mint, n + 1, s')
  {
    forall key ensures FollowedKey(v, n + 1, key) <==> FollowedKey(v, n, key) {
      FollowedKeyNext(v, n, key);
    }
    if v.page.chain.Some? {
      assert Spent(s'.f, v.page.chain.value) == Spent(s.f, v.page.chain.value);
    }
  }

  lemma PagesNext<C(!new)>(v: Visit<C>, domain: Option<int>, mint: C, n: nat, pending: seq<Item<C>>, counter: nat)
    requires n < |v.links| && Followed(v, n)
    requires pending == v.f.pending + Pages(v, domain, mint, n) && counter == v.f.counter + |Pages(v, domain, mint, n)|
    ensures pending + [PageFor(v, n, domain, mint, counter + 1)] == v.f.pending + Pages(v, domain, mint, n + 1)
    ensures counter + 1 == v.f.counter + |Pages(v, domain, mint, n + 1)|
  {
    var before, page := Pages(v, domain, mint, n), PageFor(v, n, domain, mint, counter + 1);
    assert Pages(v, domain, mint, n + 1) == before + [page];
    assert v.f.pending + (before + [page]) == (v.f.pending + before) + [page];
  }

  lemma VisitedNext<C(!new)>(v: Visit<C>, n: nat, visited: set<string>)
    requires n < |v.links| && Followed(v, n)
    requires forall key :: key in visited <==> key in v.f.visited || FollowedKey(v, n, key)
    ensures forall key :: key in visited + {KeyOf(v, n)} <==> key in v.f.visited || FollowedKey(v, n + 1, key)
  {
    forall key ensures FollowedKey(v, n + 1, key) <==> FollowedKey(v, n, key) || key == KeyOf(v, n) {
      FollowedKeyNext(v, n, key);
    }
  }

  /** A followed link appends its page and visits its key. */
  lemma FollowedNext<C(!new)>(v: Visit<C>, domain: Option<int>, mint: C, n: nat, s: Scan<C>, s': Scan<C>)
    requires n < |v.links| && Scanned(v, domain, mint, n, s) && Followed(v, n) && !s.stopped && !s'.stopped
    requires s'.f.pending == s.f.pending + [PageFor(v, n, domain, mint, s.f.counter + 1)] && s'.f.counter == s.f.counter + 1
    requires s'.f.visited == s.f.visited + {KeyOf(v, n)}
    requires Counted(v, ChildCount(v, n) + if Elected(v, n) then 0 else 1, s')
    ensures Scanned(v, domain, mint, n + 1, s')
  {
    PagesNext(v, domain, mint, n, s.f.pending, s.f.counter);
    VisitedNext(v, n, s.f.visited);
  }

  lemma ScanNext<C(!new)>(v: Visit<C>, domain: Option<int>, mint: C, n: nat, s: Scan<C>)
    requires n < |v.links| && Scanned(v, domain, mint, n, s)
    ensures Scanned(v, domain, mint, n + 1, ScanLink(v.p, v.page, domain, v.target, mint, s, v.links[n]))
  {
    var s' := ScanLink(v.p, v.page, domain, v.target, mint, s, v.links[n]);
    if s.stopped {
      assert !Followed(v, n);
      SkippedNext(v, domain, mint, n, s, s');
    } else {
      DecidesAsSaid(v, n, s, ChildCount(v, n));
      if Followed(v, n) {
        assert Wanted(v, n) && KeyOf(v, n) !in s.f.visited;
        FollowedNext(v, domain, mint, n, s, s');
      } else {
        SkippedNext(v, domain, mint, n, s, s');
      }
    }
  }

  lemma {:induction false} ScanDiscovers<C(!new)>(v: Visit<C>, domain: Option<int>, mint: C, n: nat)
    requires n <= |v.links| && mint !in v.f.cells
    ensures Scanned(v, domain, mint, n, ScanLinks(v.p, v.page, domain, v.target, mint, ScanStart(v.f, mint), v.links[..n]))
  {
    if n == 0 {
      assert v.f.pending + [] == v.f.pending;
    } else {
      ScanDiscovers(v, domain, mint, n - 1);
      assert v.links[..n][..n - 1] == v.links[..n - 1];
      ScanNext(v, domain, mint, n - 1, ScanLinks(v.p, v.page, domain, v.target, mint, ScanStart(v.f, mint), v.links[..n - 1]));
    }
  }

  function VisitOf<C>(p: Policy, f: Frontier<C>, page: Item<C>, links: seq<RawLink>): Visit<C> {
    Visit(p, f, page, Target(p, links), links)
  }

  /** Link discovery appends the pages of the followed links, all of them and no other, in document order; a chain pays for its children. */
  lemma LinksFollowedExactly<C(!new)>(p: Policy, f: Frontier<C>, page: Item<C>, domain: Option<int>, links: seq<RawLink>, mint: C)
    requires mint !in f.cells
    ensures var v, f' := VisitOf(p, f, page, links), EnqueueLinks(p, f, page, domain, links, false, mint);
            && f'.pending == f.pending + Pages(v, domain, mint, |links|)
            && (forall key :: key in f'.visited <==> key in f.visited || FollowedKey(v, |links|, key))
            && (page.chain.Some? ==> Spent(f', page.chain.value) == Spent(f, page.chain.value) + ChildCount(v, |links|))
  {
    ScanDiscovers(VisitOf(p, f, page, links), domain, mint, |links|);
    assert links[..|links|] == links;
  }

  lemma FollowedOrBeaten<C(!new)>(v: Visit<C>, i: nat)
    requires i < |v.links| && Wanted(v, i) && (Elected(v, i) || HasRoom(v, ChildCount(v, i)))
    ensures FollowedKey(v, |v.links|, KeyOf(v, i))
  {
    if !Followed(v, i) {
      var j :| 0 <= j < i && KeyOf(v, j) == KeyOf(v, i) && Followed(v, j);
    }
  }

  /**
   A key is visited after link discovery exactly when it was before, or some link of that key leads to a
   page of the site and is the elected pagination link with hops to spare, or a child link that the
   priority rule lets through while there is room.
   */
  lemma KeyVisitedIff<C(!new)>(p: Policy, f: Frontier<C>, page: Item<C>, domain: Option<int>, links: seq<RawLink>, mint: C, key: string)
    requires mint !in f.cells
    ensures var v := VisitOf(p, f, page, links);
            key in EnqueueLinks(p, f, page, domain, links, false, mint).visited <==>
              || key in f.visited
              || exists i :: 0 <= i < |links| && KeyOf(v, i) == key && Wanted(v, i)
                             && (Elected(v, i) || HasRoom(v, ChildCount(v, i)))
  {
    var v := VisitOf(p, f, page, links);
    LinksFollowedExactly(p, f, page, domain, links, mint);
    if i :| 0 <= i < |links| && KeyOf(v, i) == key && Wanted(v, i) && (Elected(v, i) || HasRoom(v, ChildCount(v, i))) {
      FollowedOrBeaten(v, i);
    }
  }

  /** Off a chain and without a link cap, every wanted link is followed. */
  lemma UncappedPageFollowsAll<C(!new)>(p: Policy, f: Frontier<C>, page: Item<C>, domain: Option<int>, links: seq<RawLink>, mint: C,
                                        i: nat)
    requires mint !in f.cells && page.chain.None? && p.maxLinks(page.depth) <= 0
    requires i < |links| && Wanted(VisitOf(p, f, page, links), i)
    ensures p.key(links[i].url) in EnqueueLinks(p, f, page, domain, links, false, mint).visited
  {
    var v := VisitOf(p, f, page, links);
    assert HasRoom(v, ChildCount(v, i));
    KeyVisitedIff(p, f, page, domain, links, mint, p.key(links[i].url));
  }

  /** Under backpressure no link is followed and all are counted as skipped. */
  lemma BackpressureFollowsNothing<C(!new)>(p: Policy, f: Frontier<C>, page: Item<C>, domain: Option<int>, links: seq<RawLink>, mint: C)
    ensures EnqueueLinks(p, f, page, domain, links, true, mint) == f.(skipped := f.skipped + |links|)
  {
  }

  // ---- a page from the queue ----

  /** The page is in the queue, a worker is free, and its links were not followed before. */
  ghost predicate ReadyToTake<C(!new)>(p: Policy, workers: nat, s: Crawl<C>, n: nat, mint: C) {
    Books(p, s) && IsNext(s.f, n) && |InFlight(s.f)| < workers && n !in s.expanded && mint !in s.f.cells
  }

  lemma TakenPage<C(!new)>(p: Policy, workers: nat, s: Crawl<C>, n: nat, mint: C)
    requires ReadyToTake(p, workers, s, n, mint)
    ensures Enabled(p, workers, s, Take(n))
    ensures var t := Apply(p, workers, s, Take(n));
            t.f.pending == s.f.pending && t.f.visited == s.f.visited && n in InFlight(t.f) && n !in t.expanded && t.f.cells == s.f.cells
            && t.f.counter == s.f.counter
  {
  }

  /** Above the depth limit a free worker can take the page and follow its links: the frontier grows by exactly the pages followed. */
  lemma PageIsExpanded<C(!new)>(p: Policy, workers: nat, s: Crawl<C>, n: nat, domain: Option<int>, links: seq<RawLink>, mint: C)
    requires ReadyToTake(p, workers, s, n, mint) && (p.maxDepth == 0 || PageOf(s.f, n).depth < p.maxDepth)
    ensures Enabled(p, workers, s, Take(n))
    ensures var t, step := Apply(p, workers, s, Take(n)), Step.Discover(n, domain, links, false, mint);
            && Enabled(p, workers, t, step)
            && Apply(p, workers, t, step).f.pending
               == s.f.pending + Pages(VisitOf(p, t.f, PageOf(s.f, n), links), domain, mint, |links|)
  {
    TakenPage(p, workers, s, n, mint);
    var t := Apply(p, workers, s, Take(n));
    LinksFollowedExactly(p, t.f, PageOf(s.f, n), domain, links, mint);
  }

  /** At the depth limit a page is fetched but its links are not followed. */
  lemma DeepPageIsNot<C(!new)>(p: Policy, workers: nat, s: Crawl<C>, step: Step<C>)
    requires p.maxDepth != 0 && step.Discover? && step.page in Counters(s.f.pending) && PageOf(s.f, step.page).depth >= p.maxDepth
    ensures !Enabled(p, workers, s, step)
  {
  }

  // ---- seeds ----

  /** The seeds a crawl takes: those on target that are not skippable and were not visited before, repeated ones too. */
  function Admitted(p: Policy, bootstrap: set<string>, seeds: seq<(string, Option<int>)>): seq<(string, Option<int>)> {
    if seeds == [] then []
    else
      var init, url := Admitted(p, bootstrap, seeds[..|seeds| - 1]), seeds[|seeds| - 1].0;
      if !p.skippable(url) && p.onTarget(url) && p.key(url) !in bootstrap then init + [seeds[|seeds| - 1]] else init
  }

  /** Every admitted seed is queued, in order and at depth 0, and seeds do not count as visited. */
  lemma {:induction false} SeedsQueued<C(!new)>(p: Policy, bootstrap: set<string>, seeds: seq<(string, Option<int>)>)
    ensures var f, admitted := SeedAll<C>(p, NoPages(bootstrap), seeds), Admitted(p, bootstrap, seeds);
            && f.visited == bootstrap && f.counter == |f.pending| == |admitted|
            && (forall i :: 0 <= i < |admitted| ==>
                  f.pending[i] == Item(p.urlPriority(admitted[i].0), i + 1, admitted[i].0, 0, admitted[i].1, true, 0, None))
  {
    if seeds != [] {
      SeedsQueued<C>(p, bootstrap, seeds[..|seeds| - 1]);
    }
  }
}
