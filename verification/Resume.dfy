/** Isomorphic frontiers stay isomorphic: a resumed crawl does what the interrupted one would have done. */
module Resume {
  import opened Prelude
  import opened Frontier
  import opened Crawl
  import opened Checkpoint

  /** Two optional cells play the same role. */
  ghost predicate MatchedOption<A(!new), B(!new)>(f: Frontier<A>, g: Frontier<B>, a: Option<A>, b: Option<B>) {
    (a.None? <==> b.None?) && (a.Some? ==> Matched(f, g, a.value, b.value))
  }

  /** Enqueueing the same page with matched cells keeps the frontiers isomorphic and other matches intact. */
  lemma EnqueueKeepsIso<A(!new), B(!new)>(p: Policy, f: Frontier<A>, g: Frontier<B>, url: string, depth: nat, domain: Option<int>,
                                          hops: nat, a: Option<A>, b: Option<B>)
    requires Iso(f, g) && MatchedOption(f, g, a, b)
    ensures Iso(Enqueue(p, f, url, depth, domain, false, hops, a), Enqueue(p, g, url, depth, domain, false, hops, b))
  {
    var f', g' := Enqueue(p, f, url, depth, domain, false, hops, a), Enqueue(p, g, url, depth, domain, false, hops, b);
    if f'.counter != f.counter {
      var n := |f.pending|;
      forall i | 0 <= i <= n ensures SameRecord(f'.pending[i], g'.pending[i]) {
        if i < n {
          assert f'.pending[i] == f.pending[i] && g'.pending[i] == g.pending[i];
        }
      }
      forall i | 0 <= i <= n && f'.pending[i].chain.Some?
        ensures Matched(f', g', f'.pending[i].chain.value, g'.pending[i].chain.value)
      {
        if i < n {
          assert f'.pending[i] == f.pending[i] && g'.pending[i] == g.pending[i];
          EnqueueKeepsMatch(p, f, g, url, depth, domain, hops, a, b, f.pending[i].chain.value, g.pending[i].chain.value);
          if a.Some? {
            assert f.pending[i].chain == a <==> g.pending[i].chain == b;
          }
        } else {
          EnqueueKeepsMatch(p, f, g, url, depth, domain, hops, a, b, a.value, b.value);
        }
      }
    }
  }

  lemma EnqueueKeepsMatch<A(!new), B(!new)>(p: Policy, f: Frontier<A>, g: Frontier<B>, url: string, depth: nat, domain: Option<int>,
                                            hops: nat, a: Option<A>, b: Option<B>, x: A, y: B)
    requires f.visited == g.visited && Matched(f, g, x, y) && (a == Some(x) <==> b == Some(y))
    ensures Matched(Enqueue(p, f, url, depth, domain, false, hops, a), Enqueue(p, g, url, depth, domain, false, hops, b), x, y)
  {
  }

  /** Spending from matched cells on both sides keeps every match. */
  lemma PayKeepsMatch<A(!new), B(!new)>(f: Frontier<A>, g: Frontier<B>, a: A, b: B, x: A, y: B)
    requires Matched(f, g, a, b) && Matched(f, g, x, y) && (x == a <==> y == b)
    ensures Matched(Pay(f, a), Pay(g, b), x, y)
  {
  }

  lemma PayKeepsIso<A(!new), B(!new)>(f: Frontier<A>, g: Frontier<B>, a: A, b: B)
    requires Iso(f, g) && Matched(f, g, a, b)
    ensures Iso(Pay(f, a), Pay(g, b))
  {
    forall i | 0 <= i < |f.pending| && f.pending[i].chain.Some?
      ensures Matched(Pay(f, a), Pay(g, b), f.pending[i].chain.value, g.pending[i].chain.value)
    {
      assert f.pending[i].chain == Some(a) <==> g.pending[i].chain == Some(b);
      PayKeepsMatch(f, g, a, b, f.pending[i].chain.value, g.pending[i].chain.value);
    }
  }

  lemma SkipKeepsIso<A(!new), B(!new)>(f: Frontier<A>, g: Frontier<B>, n: nat)
    requires Iso(f, g)
    ensures Iso(Skip(f, n), Skip(g, n))
    ensures forall a, b :: Matched(f, g, a, b) ==> Matched(Skip(f, n), Skip(g, n), a, b)
  {
    forall a, b | Matched(f, g, a, b) ensures Matched(Skip(f, n), Skip(g, n), a, b) {}
    forall i | 0 <= i < |f.pending| && f.pending[i].chain.Some?
      ensures Matched(Skip(f, n), Skip(g, n), f.pending[i].chain.value, g.pending[i].chain.value)
    {
      assert Matched(f, g, f.pending[i].chain.value, g.pending[i].chain.value);
    }
  }

  /** Frontiers isomorphic, the page's cells and the fresh cells matched. */
  ghost predicate Twins<A(!new), B(!new)>(fp: Item<A>, gp: Item<B>, ma: A, mb: B, f: Frontier<A>, g: Frontier<B>) {
    Iso(f, g) && MatchedOption(f, g, fp.chain, gp.chain) && Matched(f, g, ma, mb)
  }

  /** The link loops of both sides are in step. */
  ghost predicate InStep<A(!new), B(!new)>(fp: Item<A>, gp: Item<B>, ma: A, mb: B, s: Scan<A>, t: Scan<B>) {
    Twins(fp, gp, ma, mb, s.f, t.f) && s.added == t.added && s.stopped == t.stopped
  }

  ghost predicate SamePage<A(!new), B(!new)>(fp: Item<A>, gp: Item<B>, ma: A, mb: B) {
    SameRecord(fp, gp) && fp.chain != Some(ma) && gp.chain != Some(mb)
  }

  lemma DropInStep<A(!new), B(!new)>(fp: Item<A>, gp: Item<B>, ma: A, mb: B, s: Scan<A>, t: Scan<B>, stop: bool)
    requires InStep(fp, gp, ma, mb, s, t)
    ensures InStep(fp, gp, ma, mb, Drop(s, stop), Drop(t, stop))
  {
    SkipKeepsIso(s.f, t.f, 1);
  }

  /** Enqueueing with the page's cells, the fresh cells or none. */
  lemma EnqueueTwins<A(!new), B(!new)>(p: Policy, fp: Item<A>, gp: Item<B>, ma: A, mb: B, f: Frontier<A>, g: Frontier<B>,
                                       url: string, depth: nat, domain: Option<int>, hops: nat, a: Option<A>, b: Option<B>)
    requires Twins(fp, gp, ma, mb, f, g) && SamePage(fp, gp, ma, mb)
    requires (a == None && b == None) || (a == Some(ma) && b == Some(mb)) || (a == fp.chain && b == gp.chain)
    ensures Twins(fp, gp, ma, mb, Enqueue(p, f, url, depth, domain, false, hops, a), Enqueue(p, g, url, depth, domain, false, hops, b))
  {
    EnqueueKeepsIso(p, f, g, url, depth, domain, hops, a, b);
    EnqueueKeepsMatch(p, f, g, url, depth, domain, hops, a, b, ma, mb);
    if fp.chain.Some? {
      EnqueueKeepsMatch(p, f, g, url, depth, domain, hops, a, b, fp.chain.value, gp.chain.value);
    }
  }

  lemma PayTwins<A(!new), B(!new)>(fp: Item<A>, gp: Item<B>, ma: A, mb: B, f: Frontier<A>, g: Frontier<B>)
    requires Twins(fp, gp, ma, mb, f, g) && SamePage(fp, gp, ma, mb) && fp.chain.Some?
    ensures Twins(fp, gp, ma, mb, Pay(f, fp.chain.value), Pay(g, gp.chain.value))
  {
    PayKeepsIso(f, g, fp.chain.value, gp.chain.value);
    PayKeepsMatch(f, g, fp.chain.value, gp.chain.value, fp.chain.value, gp.chain.value);
    PayKeepsMatch(f, g, fp.chain.value, gp.chain.value, ma, mb);
  }

  lemma FollowChainInStep<A(!new), B(!new)>(p: Policy, fp: Item<A>, gp: Item<B>, domain: Option<int>, ma: A, mb: B,
                                            s: Scan<A>, t: Scan<B>, url: string)
    requires InStep(fp, gp, ma, mb, s, t) && SamePage(fp, gp, ma, mb)
    ensures InStep(fp, gp, ma, mb, FollowChain(p, fp, domain, ma, s, url), FollowChain(p, gp, domain, mb, t, url))
  {
    var a := Some(if fp.chain.Some? then fp.chain.value else ma);
    var b := Some(if gp.chain.Some? then gp.chain.value else mb);
    EnqueueTwins(p, fp, gp, ma, mb, s.f, t.f, url, fp.depth, domain, fp.hops + 1, a, b);
  }

  lemma PaidChildTwins<A(!new), B(!new)>(p: Policy, fp: Item<A>, gp: Item<B>, domain: Option<int>, ma: A, mb: B,
                                         f: Frontier<A>, g: Frontier<B>, a: A, b: B, url: string)
    requires Twins(fp, gp, ma, mb, f, g) && SamePage(fp, gp, ma, mb) && fp.chain == Some(a) && gp.chain == Some(b)
    ensures Twins(fp, gp, ma, mb, Enqueue(p, Pay(f, a), url, fp.depth + 1, domain, false, fp.hops, None),
                  Enqueue(p, Pay(g, b), url, gp.depth + 1, domain, false, gp.hops, None))
  {
    PayTwins(fp, gp, ma, mb, f, g);
    EnqueueTwins(p, fp, gp, ma, mb, Pay(f, a), Pay(g, b), url, fp.depth + 1, domain, fp.hops, None, None);
  }

  lemma FollowChildInStep<A(!new), B(!new)>(p: Policy, fp: Item<A>, gp: Item<B>, domain: Option<int>, ma: A, mb: B,
                                            s: Scan<A>, t: Scan<B>, url: string)
    requires InStep(fp, gp, ma, mb, s, t) && SamePage(fp, gp, ma, mb)
    ensures InStep(fp, gp, ma, mb, FollowChild(p, fp, domain, s, url), FollowChild(p, gp, domain, t, url))
  {
    if fp.chain.Some? {
      PaidChildTwins(p, fp, gp, domain, ma, mb, s.f, t.f, fp.chain.value, gp.chain.value, url);
    } else {
      EnqueueTwins(p, fp, gp, ma, mb, s.f, t.f, url, fp.depth + 1, domain, fp.hops, None, None);
    }
  }

  lemma ScanLinkInStep<A(!new), B(!new)>(p: Policy, fp: Item<A>, gp: Item<B>, domain: Option<int>, target: Option<string>,
                                         ma: A, mb: B, s: Scan<A>, t: Scan<B>, link: RawLink)
    requires InStep(fp, gp, ma, mb, s, t) && SamePage(fp, gp, ma, mb)
    ensures InStep(fp, gp, ma, mb, ScanLink(p, fp, domain, target, ma, s, link), ScanLink(p, gp, domain, target, mb, t, link))
  {
    var verdict := Judge(p, fp.url, fp.depth, fp.isSeed, fp.hops, Budget(s.f, fp), target, s.f.visited, s.added, link);
    assert Budget(s.f, fp) == Budget(t.f, gp);
    assert verdict == Judge(p, gp.url, gp.depth, gp.isSeed, gp.hops, Budget(t.f, gp), target, t.f.visited, t.added, link);
    match verdict
    case SkipLink(stop) => DropInStep(fp, gp, ma, mb, s, t, stop);
    case NextPage => FollowChainInStep(p, fp, gp, domain, ma, mb, s, t, link.url);
    case ChildPage => FollowChildInStep(p, fp, gp, domain, ma, mb, s, t, link.url);
  }

  lemma {:induction false} ScanLinksInStep<A(!new), B(!new)>(p: Policy, fp: Item<A>, gp: Item<B>, domain: Option<int>,
                                                             target: Option<string>, ma: A, mb: B, s: Scan<A>, t: Scan<B>,
                                                             links: seq<RawLink>)
    requires InStep(fp, gp, ma, mb, s, t) && SamePage(fp, gp, ma, mb)
    ensures InStep(fp, gp, ma, mb, ScanLinks(p, fp, domain, target, ma, s, links), ScanLinks(p, gp, domain, target, mb, t, links))
  {
    if links != [] {
      var shorter := links[..|links| - 1];
      ScanLinksInStep(p, fp, gp, domain, target, ma, mb, s, t, shorter);
      ScanLinkInStep(p, fp, gp, domain, target, ma, mb, ScanLinks(p, fp, domain, target, ma, s, shorter),
                     ScanLinks(p, gp, domain, target, mb, t, shorter), links[|links| - 1]);
    }
  }

  /** Every pending page's cell exists. */
  ghost predicate CellsKnown<C(!new)>(f: Frontier<C>) {
    forall i :: 0 <= i < |f.pending| && f.pending[i].chain.Some? ==> f.pending[i].chain.value in f.cells
  }

  /** Matching link discoveries keep two isomorphic frontiers isomorphic. */
  lemma DiscoverKeepsIso<A(!new), B(!new)>(p: Policy, f: Frontier<A>, g: Frontier<B>, i: nat, domain: Option<int>,
                                           links: seq<RawLink>, backpressured: bool, ma: A, mb: B)
    requires Iso(f, g) && i < |f.pending| && CellsKnown(f) && CellsKnown(g) && ma !in f.cells && mb !in g.cells
    ensures Iso(EnqueueLinks(p, f, f.pending[i], domain, links, backpressured, ma),
                EnqueueLinks(p, g, g.pending[i], domain, links, backpressured, mb))
  {
    if backpressured {
      SkipKeepsIso(f, g, |links|);
    } else {
      var s, t := ScanStart(f, ma), ScanStart(g, mb);
      assert SameRecord(f.pending[i], g.pending[i]);
      forall j | 0 <= j < |f.pending| && f.pending[j].chain.Some?
        ensures Matched(s.f, t.f, f.pending[j].chain.value, g.pending[j].chain.value)
      {
        assert Matched(f, g, f.pending[j].chain.value, g.pending[j].chain.value);
      }
      assert Matched(s.f, t.f, ma, mb);
      assert Iso(s.f, t.f);
      ScanLinksInStep(p, f.pending[i], g.pending[i], domain, Target(p, links), ma, mb, s, t, links);
    }
  }

  /** Dropping the k-th page on both sides keeps the frontiers isomorphic. */
  lemma CutKeepsIso<A(!new), B(!new)>(f: Frontier<A>, g: Frontier<B>, f': Frontier<A>, g': Frontier<B>, k: nat)
    requires Iso(f, g) && k < |f.pending|
    requires f' == f.(pending := f'.pending) && g' == g.(pending := g'.pending)
    requires |f'.pending| == |f.pending| - 1 == |g'.pending|
    requires forall i :: 0 <= i < |f.pending| - 1 ==> f'.pending[i] == f.pending[if i < k then i else i + 1]
    requires forall i :: 0 <= i < |f.pending| - 1 ==> g'.pending[i] == g.pending[if i < k then i else i + 1]
    ensures Iso(f', g')
  {
    forall i | 0 <= i < |f'.pending| ensures SameRecord(f'.pending[i], g'.pending[i]) {
      assert SameRecord(f.pending[if i < k then i else i + 1], g.pending[if i < k then i else i + 1]);
    }
    forall i | 0 <= i < |f'.pending| && f'.pending[i].chain.Some?
      ensures Matched(f', g', f'.pending[i].chain.value, g'.pending[i].chain.value)
    {
      var j := if i < k then i else i + 1;
      assert f'.pending[i] == f.pending[j] && g'.pending[i] == g.pending[j];
      assert Matched(f, g, f.pending[j].chain.value, g.pending[j].chain.value);
    }
  }

  lemma WithoutAt<C(!new)>(items: seq<Item<C>>, n: nat)
    requires n in Counters(items)
    ensures |Without(items, n)| == |items| - 1
    ensures forall i :: 0 <= i < |items| - 1 ==> Without(items, n)[i] == items[if i < IndexOf(items, n) then i else i + 1]
  {
  }

  lemma DoneKeepsIso<A(!new), B(!new)>(f: Frontier<A>, g: Frontier<B>, n: nat)
    requires Iso(f, g) && n in Counters(f.pending) && n in Counters(g.pending)
    ensures IndexOf(f.pending, n) == IndexOf(g.pending, n)
    ensures Iso(f.(pending := Without(f.pending, n)), g.(pending := Without(g.pending, n)))
  {
    SameCounters(f, g);
    SameIndex(f.pending, g.pending, n);
    WithoutAt(f.pending, n);
    WithoutAt(g.pending, n);
    var f', g' := f.(pending := Without(f.pending, n)), g.(pending := Without(g.pending, n));
    CutKeepsIso(f, g, f', g', IndexOf(f.pending, n));
  }

  lemma {:induction false} SameIndex<A(!new), B(!new)>(a: seq<Item<A>>, b: seq<Item<B>>, n: nat)
    requires |a| == |b| && forall i :: 0 <= i < |a| ==> a[i].counter == b[i].counter
    ensures IndexOf(a, n) == IndexOf(b, n)
  {
    if a != [] && a[0].counter != n {
      SameIndex(a[1..], b[1..], n);
    }
  }

  /** Isomorphic frontiers hand out their pages in the same order. */
  lemma SameQueueOrder<A(!new), B(!new)>(f: Frontier<A>, g: Frontier<B>, n: nat, m: nat)
    requires Iso(f, g) && n in Counters(f.pending) && m in Counters(f.pending)
    ensures n in Counters(g.pending) && m in Counters(g.pending)
    ensures Before(PageOf(f, n), PageOf(f, m)) <==> Before(PageOf(g, n), PageOf(g, m))
  {
    SameCounters(f, g);
    SameIndex(f.pending, g.pending, n);
    SameIndex(f.pending, g.pending, m);
    assert SameRecord(PageOf(f, n), PageOf(g, n)) && SameRecord(PageOf(f, m), PageOf(g, m));
  }

  /** Whatever set of pages is queued on both sides, the same page is next. */
  lemma SameNext<A(!new), B(!new)>(f: Frontier<A>, g: Frontier<B>, n: nat)
    requires Iso(f, g) && f.queued == g.queued
    ensures IsNext(f, n) <==> IsNext(g, n)
  {
    SameCounters(f, g);
    if f.queued <= Counters(f.pending) && n in f.queued {
      forall m | m in f.queued
        ensures Before(PageOf(f, n), PageOf(f, m)) <==> Before(PageOf(g, n), PageOf(g, m))
      {
        SameQueueOrder(f, g, n, m);
      }
    }
  }

  // ---- whole continuations ----

  /** What happens to a page a worker holds, apart from the identity of a fresh cell. */
  datatype Move =
    | Follow(page: nat, domain: Option<int>, links: seq<RawLink>, backpressured: bool)
    | Finish(page: nat)

  function Moved<C(==)>(p: Policy, f: Frontier<C>, move: Move, mint: C): Frontier<C>
    requires move.page in Counters(f.pending)
  {
    match move
    case Finish(n) => f.(pending := Without(f.pending, n))
    case Follow(n, domain, links, backpressured) => EnqueueLinks(p, f, PageOf(f, n), domain, links, backpressured, mint)
  }

  /** A sequence of moves on pending pages, each with a cell not in use. */
  ghost predicate Playable<C(!new)>(p: Policy, f: Frontier<C>, moves: seq<Move>, mints: seq<C>)
    requires |moves| == |mints|
    decreases |moves|
  {
    moves == [] ||
    (moves[0].page in Counters(f.pending) && mints[0] !in f.cells
     && Playable(p, Moved(p, f, moves[0], mints[0]), moves[1..], mints[1..]))
  }

  ghost function Play<C(!new)>(p: Policy, f: Frontier<C>, moves: seq<Move>, mints: seq<C>): Frontier<C>
    requires |moves| == |mints| && Playable(p, f, moves, mints)
    decreases |moves|
  {
    if moves == [] then f else Play(p, Moved(p, f, moves[0], mints[0]), moves[1..], mints[1..])
  }

  lemma MoveKeepsCells<C(!new)>(p: Policy, f: Frontier<C>, move: Move, mint: C)
    requires CellsKnown(f) && move.page in Counters(f.pending) && mint !in f.cells
    ensures CellsKnown(Moved(p, f, move, mint))
  {
    match move
    case Finish(n) =>
      var k := WithoutIsCut(f.pending, n);
    case Follow(n, domain, links, backpressured) =>
      var page := PageOf(f, n);
      var born := EnqueueLinksAdds(p, f, page, domain, links, backpressured, mint);
      var f' := EnqueueLinks(p, f, page, domain, links, backpressured, mint);
      forall i | 0 <= i < |f'.pending| && f'.pending[i].chain.Some? ensures f'.pending[i].chain.value in f'.cells {
        assert f'.pending[i] == if i < |f.pending| then f.pending[i] else born[i - |f.pending|];
      }
  }

  lemma MoveKeepsIso<A(!new), B(!new)>(p: Policy, f: Frontier<A>, g: Frontier<B>, move: Move, ma: A, mb: B)
    requires Iso(f, g) && CellsKnown(f) && CellsKnown(g)
    requires move.page in Counters(f.pending) && move.page in Counters(g.pending) && ma !in f.cells && mb !in g.cells
    ensures Iso(Moved(p, f, move, ma), Moved(p, g, move, mb))
  {
    DoneKeepsIso(f, g, move.page);
    match move
    case Finish(n) =>
    case Follow(n, domain, links, backpressured) =>
      DiscoverKeepsIso(p, f, g, IndexOf(f.pending, n), domain, links, backpressured, ma, mb);
  }

  /** Played on isomorphic frontiers, the same moves lead to isomorphic frontiers. */
  lemma {:induction false} PlayKeepsIso<A(!new), B(!new)>(p: Policy, f: Frontier<A>, g: Frontier<B>, moves: seq<Move>,
                                                          fm: seq<A>, gm: seq<B>)
    requires Iso(f, g) && CellsKnown(f) && CellsKnown(g) && |moves| == |fm| == |gm|
    requires Playable(p, f, moves, fm) && Playable(p, g, moves, gm)
    ensures Iso(Play(p, f, moves, fm), Play(p, g, moves, gm))
    decreases |moves|
  {
    if moves != [] {
      MoveKeepsIso(p, f, g, moves[0], fm[0], gm[0]);
      MoveKeepsCells(p, f, moves[0], fm[0]);
      MoveKeepsCells(p, g, moves[0], gm[0]);
      PlayKeepsIso(p, Moved(p, f, moves[0], fm[0]), Moved(p, g, moves[0], gm[0]), moves[1..], fm[1..], gm[1..]);
    }
  }

  /** Following links makes no cell but the fresh one. */
  lemma {:induction false} ScanKeepsCells<C>(p: Policy, page: Item<C>, domain: Option<int>, target: Option<string>, mint: C,
                                             s: Scan<C>, links: seq<RawLink>)
    requires page.chain.Some? ==> page.chain.value in s.f.cells
    ensures ScanLinks(p, page, domain, target, mint, s, links).f.cells.Keys == s.f.cells.Keys
  {
    if links != [] {
      ScanKeepsCells(p, page, domain, target, mint, s, links[..|links| - 1]);
    }
  }

  lemma MoveMints<C(!new)>(p: Policy, f: Frontier<C>, move: Move, mint: C)
    requires CellsKnown(f) && move.page in Counters(f.pending)
    ensures Moved(p, f, move, mint).cells.Keys <= f.cells.Keys + {mint}
  {
    match move
    case Finish(n) =>
    case Follow(n, domain, links, backpressured) =>
      ScanKeepsCells(p, PageOf(f, n), domain, Target(p, links), mint, ScanStart(f, mint), links);
  }

  /** Cells the frontier does not have, no two alike. */
  ghost predicate Fresh<C(!new)>(f: Frontier<C>, mints: seq<C>) {
    && (forall i :: 0 <= i < |mints| ==> mints[i] !in f.cells)
    && (forall i, j :: 0 <= i < j < |mints| ==> mints[i] != mints[j])
  }

  lemma FreshAfterMove<C(!new)>(p: Policy, f: Frontier<C>, move: Move, mints: seq<C>)
    requires CellsKnown(f) && move.page in Counters(f.pending) && mints != [] && Fresh(f, mints)
    ensures Fresh(Moved(p, f, move, mints[0]), mints[1..])
  {
    MoveMints(p, f, move, mints[0]);
    forall i | 0 <= i < |mints[1..]| ensures mints[1..][i] !in Moved(p, f, move, mints[0]).cells {
      assert mints[1..][i] == mints[i + 1];
    }
  }

  /** Moves that can be made on one of two isomorphic frontiers can be made on the other, with fresh cells of its own. */
  lemma {:induction false} PlayableAlike<A(!new), B(!new)>(p: Policy, f: Frontier<A>, g: Frontier<B>, moves: seq<Move>,
                                                           fm: seq<A>, gm: seq<B>)
    requires Iso(f, g) && CellsKnown(f) && CellsKnown(g) && |moves| == |fm| == |gm|
    requires Playable(p, f, moves, fm) && Fresh(g, gm)
    ensures Playable(p, g, moves, gm)
    decreases |moves|
  {
    if moves != [] {
      SameCounters(f, g);
      MoveKeepsIso(p, f, g, moves[0], fm[0], gm[0]);
      MoveKeepsCells(p, f, moves[0], fm[0]);
      MoveKeepsCells(p, g, moves[0], gm[0]);
      FreshAfterMove(p, g, moves[0], gm);
      PlayableAlike(p, Moved(p, f, moves[0], fm[0]), Moved(p, g, moves[0], gm[0]), moves[1..], fm[1..], gm[1..]);
    }
  }

  /** A rebuilt frontier has a cell for every chain key. */
  lemma RebuiltKnowsCells<C(!new)>(snap: Snapshot, bootstrap: set<string>, cells: map<nat, C>, g: Frontier<C>)
    requires Rebuilt(snap, bootstrap, cells, g)
    ensures CellsKnown(g)
  {
    forall i | 0 <= i < |g.pending| && g.pending[i].chain.Some? ensures g.pending[i].chain.value in g.cells {
      assert g.pending[i] == Rebuild(snap.items[i], cells);
    }
  }

  /**
   A crawl resumed from a checkpoint continues exactly as the interrupted one would with the bootstrap's
   keys visited as well: it can make whatever moves the other could, and after them both would write the
   same snapshot, budgets included.
   */
  lemma ResumedCrawlContinues<A(!new), B(!new)>(p: Policy, f: Frontier<A>, bootstrap: set<string>, cells: map<nat, B>, g: Frontier<B>,
                                                moves: seq<Move>, fm: seq<A>, gm: seq<B>)
    requires Rebuilt(Save(f), bootstrap, cells, g)
    requires CellsKnown(f) && |moves| == |fm| == |gm|
    requires Playable(p, Widened(f, bootstrap), moves, fm) && Fresh(g, gm)
    ensures Playable(p, g, moves, gm)
    ensures Save(Play(p, g, moves, gm)) == Save(Play(p, Widened(f, bootstrap), moves, fm))
  {
    ResumeIsExact(f, bootstrap, cells, g);
    RebuiltKnowsCells(Save(f), bootstrap, cells, g);
    PlayableAlike(p, Widened(f, bootstrap), g, moves, fm, gm);
    PlayKeepsIso(p, Widened(f, bootstrap), g, moves, fm, gm);
    SnapshotIsCanonical(Play(p, Widened(f, bootstrap), moves, fm), Play(p, g, moves, gm));
  }

  /** Follows everything on target; a page's key is its URL. */
  function OpenPolicy(): Policy {
    Policy(u => u, _ => false, _ => true, _ => 0, (_, _) => true, _ => false, false, 0, _ => 0, 1, 1)
  }

  /** One seed in the queue, nothing visited. */
  function OnePage(visited: set<string>): Frontier<nat> {
    Frontier([Item(0, 1, "a", 0, None, true, 0, None)], {1}, 1, visited, 1, 0, map[])
  }

  /**
   With a bootstrap that has grown by one key since the checkpoint, the resumed crawl skips the link that
   the interrupted one would have followed.
   */
  lemma GrownBootstrapSkipsLinks(links: seq<RawLink>)
    requires links == [RawLink("b", "", [])]
    ensures Rebuilt(Save(OnePage({})), {"b"}, map[], OnePage({"b"})) && !Iso(OnePage({}), OnePage({"b"}))
    ensures 1 in Counters(OnePage({}).pending) && 1 in Counters(OnePage({"b"}).pending)
    ensures |Moved(OpenPolicy(), OnePage({}), Follow(1, None, links, false), 0).pending| == 2
    ensures Moved(OpenPolicy(), OnePage({"b"}), Follow(1, None, links, false), 0).pending == OnePage({"b"}).pending
  {
    var f, g, p := OnePage({}), OnePage({"b"}), OpenPolicy();
    assert f.pending[0].counter == 1 && g.pending[0].counter == 1;
    assert SaveItems(f, 1) == SaveItem(f, SaveItems(f, 0), f.pending[0]);
    assert links[..0] == [] && links == links[..0] + [links[0]];
    assert Counters(g.pending) == {1};
    var page := f.pending[0];
    assert PageOf(f, 1) == page && PageOf(g, 1) == page;
    assert ScanLinks(p, page, None, None, 0, ScanStart(f, 0), links)
        == ScanLink(p, page, None, None, 0, ScanLinks(p, page, None, None, 0, ScanStart(f, 0), []), links[0]);
    assert ScanLinks(p, page, None, None, 0, ScanStart(g, 0), links)
        == ScanLink(p, page, None, None, 0, ScanLinks(p, page, None, None, 0, ScanStart(g, 0), []), links[0]);
  }

  lemma PendingKeysApart<C(!new)>(p: Policy, s: Crawl<C>)
    requires Books(p, s)
    ensures KeysApart(p, s.f.pending, s.f.visited)
  {
    forall i, j | 0 <= i < j < |s.f.pending| && !s.f.pending[i].isSeed && !s.f.pending[j].isSeed
      ensures p.key(s.f.pending[i].url) != p.key(s.f.pending[j].url)
    {
      var k :| 0 <= k < |s.born| && s.born[k] == s.f.pending[i];
      var l :| 0 <= l < |s.born| && s.born[l] == s.f.pending[j];
      assert k < l;
    }
  }

  /** A resumed run starts with its books in order, whatever the bootstrap, so it drains as any other run does. */
  lemma ResumedBooks<A(!new), B(!new)>(p: Policy, s: Crawl<A>, bootstrap: set<string>, cells: map<nat, B>, g: Frontier<B>)
    requires Books(p, s) && Rebuilt(Save(s.f), bootstrap, cells, g)
    ensures Books(p, Start(g))
  {
    ResumeIsExact(s.f, bootstrap, cells, g);
    PendingKeysApart(p, s);
    IsoKeepsKeysApart(p, Widened(s.f, bootstrap), g);
    assert InFlight(g) == {};
  }

  lemma IsoKeepsKeysApart<A(!new), B(!new)>(p: Policy, f: Frontier<A>, g: Frontier<B>)
    requires Iso(f, g) && KeysApart(p, f.pending, f.visited) && Ascending(f.pending, f.counter)
    ensures KeysApart(p, g.pending, g.visited) && Ascending(g.pending, g.counter)
  {
    assert forall i :: 0 <= i < |g.pending| ==> SameRecord(f.pending[i], g.pending[i]);
  }
}
