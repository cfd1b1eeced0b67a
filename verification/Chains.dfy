/** Pagination chains within one run that starts from seeds: their shape, their budget and the crawl's depth. */
module Chains {
  import opened Prelude
  import opened Frontier
  import opened Crawl

  predicate SameChain<C(==)>(a: Item<C>, b: Item<C>) {
    a.chain.Some? && a.chain == b.chain
  }

  /** Later pages of a cell have more hops, and only the last one can still be expanded. */
  ghost predicate Ordered<C(!new)>(born: seq<Item<C>>, expanded: set<nat>) {
    forall i, j :: 0 <= i < j < |born| && SameChain(born[i], born[j]) ==>
      born[i].hops < born[j].hops && born[i].counter in expanded
  }

  /** Pages i and j share a cell and no page between them does. */
  ghost predicate Neighbours<C(!new)>(born: seq<Item<C>>, i: int, j: int) {
    && 0 <= i < j < |born| && SameChain(born[i], born[j])
    && forall k :: i < k < j ==> !SameChain(born[i], born[k])
  }

  ghost predicate UnitSteps<C(!new)>(born: seq<Item<C>>) {
    forall i, j :: Neighbours(born, i, j) ==> born[j].hops == born[i].hops + 1
  }

  /** The pages sharing a cell form a path with hops in 1..max_pagination_pages. */
  ghost predicate Paths<C(!new)>(p: Policy, born: seq<Item<C>>, expanded: set<nat>) {
    && Ordered(born, expanded)
    && UnitSteps(born)
    && (forall i :: 0 <= i < |born| && born[i].chain.Some? ==> 1 <= born[i].hops <= p.maxPages)
  }

  /** Each cell holds exactly the number of structural children its pages paid for, within the cap. */
  ghost predicate Budgets<C(!new)>(p: Policy, s: Crawl<C>) {
    && (forall c :: Spent(s.f, c) == s.structural[c])
    && (forall c :: s.structural[c] > 0 ==> s.structural[c] <= p.maxChainChildren)
    && (forall i :: 0 <= i < |s.born| && s.born[i].chain.Some? ==> s.born[i].chain.value in s.f.cells)
  }

  ghost predicate DepthsBounded<C(!new)>(p: Policy, born: seq<Item<C>>) {
    p.maxDepth > 0 ==> forall i :: 0 <= i < |born| ==> born[i].depth <= p.maxDepth
  }

  ghost predicate ChainInv<C(!new)>(p: Policy, s: Crawl<C>) {
    Books(p, s) && Paths(p, s.born, s.expanded) && Budgets(p, s) && DepthsBounded(p, s.born)
  }

  /** A fresh run: seeds only. */
  ghost predicate SeedsOnly<C(!new)>(p: Policy, s: Crawl<C>) {
    && Books(p, s) && s.expanded == {} && s.structural == multiset{} && s.f.cells == map[]
    && forall i :: 0 <= i < |s.born| ==> s.born[i].isSeed && s.born[i].depth == 0 && s.born[i].chain.None?
  }

  /** A new chain page shares its cell with the expanded page, which was the last of its chain, or with nobody. */
  lemma NewPageFollows<C(!new)>(p: Policy, born: seq<Item<C>>, expanded: set<nat>, q: nat, mint: C, more: seq<Item<C>>, i: nat, j: nat)
    requires Ordered(born, expanded) && q < |born| && born[q].counter !in expanded
    requires Children(p, born[q], mint, more)
    requires forall k :: 0 <= k < |born| ==> born[k].chain != Some(mint)
    requires i < j < |born + more| && |born| <= j && SameChain((born + more)[i], (born + more)[j])
    ensures i <= q && SameChain(born[i], born[q]) && (born + more)[j].hops == born[q].hops + 1 && born[i].hops <= born[q].hops
  {
    var n := |born|;
    assert (born + more)[j] == more[j - n];
    if i >= n {
      assert false;
    }
    assert SameChain(born[i], born[q]);
    if q < i {
      assert false;
    }
  }

  lemma GrowthKeepsOrder<C(!new)>(p: Policy, born: seq<Item<C>>, expanded: set<nat>, q: nat, mint: C, more: seq<Item<C>>)
    requires Ordered(born, expanded) && q < |born| && born[q].counter !in expanded
    requires Children(p, born[q], mint, more)
    requires forall k :: 0 <= k < |born| ==> born[k].chain != Some(mint)
    ensures Ordered(born + more, expanded + {born[q].counter})
  {
    var all := born + more;
    forall i, j | 0 <= i < j < |all| && SameChain(all[i], all[j])
      ensures all[i].hops < all[j].hops && all[i].counter in expanded + {born[q].counter}
    {
      if j < |born| {
        assert all[i] == born[i] && all[j] == born[j];
      } else {
        NewPageFollows(p, born, expanded, q, mint, more, i, j);
        assert all[i] == born[i];
      }
    }
  }

  lemma GrowthKeepsUnitSteps<C(!new)>(p: Policy, born: seq<Item<C>>, expanded: set<nat>, q: nat, mint: C, more: seq<Item<C>>)
    requires Ordered(born, expanded) && UnitSteps(born) && q < |born| && born[q].counter !in expanded
    requires Children(p, born[q], mint, more)
    requires forall k :: 0 <= k < |born| ==> born[k].chain != Some(mint)
    ensures UnitSteps(born + more)
  {
    var all := born + more;
    forall i, j | Neighbours(all, i, j) ensures all[j].hops == all[i].hops + 1 {
      if j < |born| {
        assert forall k :: i <= k <= j ==> all[k] == born[k];
        assert Neighbours(born, i, j);
      } else {
        NewPageFollows(p, born, expanded, q, mint, more, i, j);
        assert all[i] == born[i] && all[q] == born[q];
      }
    }
  }

  lemma GrowthKeepsPaths<C(!new)>(p: Policy, born: seq<Item<C>>, expanded: set<nat>, q: nat, mint: C, more: seq<Item<C>>)
    requires Paths(p, born, expanded) && q < |born| && born[q].counter !in expanded
    requires Children(p, born[q], mint, more)
    requires forall i :: 0 <= i < |born| ==> born[i].chain != Some(mint)
    ensures Paths(p, born + more, expanded + {born[q].counter})
  {
    GrowthKeepsOrder(p, born, expanded, q, mint, more);
    GrowthKeepsUnitSteps(p, born, expanded, q, mint, more);
    forall i | 0 <= i < |born + more| && (born + more)[i].chain.Some? ensures 1 <= (born + more)[i].hops <= p.maxPages {
      if i >= |born| {
        assert (born + more)[i] == more[i - |born|];
      }
    }
  }

  lemma PageInHistory<C(!new)>(p: Policy, s: Crawl<C>, n: nat) returns (q: nat)
    requires Books(p, s) && n in Counters(s.f.pending)
    ensures q < |s.born| && s.born[q] == PageOf(s.f, n)
  {
    assert PageOf(s.f, n) in s.born;
    q :| 0 <= q < |s.born| && s.born[q] == PageOf(s.f, n);
  }

  lemma GrowthKeepsCells<C(!new)>(p: Policy, born: seq<Item<C>>, cells: set<C>, cells': set<C>, q: nat, mint: C, more: seq<Item<C>>)
    requires q < |born| && Children(p, born[q], mint, more) && cells <= cells'
    requires forall i :: 0 <= i < |born| && born[i].chain.Some? ==> born[i].chain.value in cells
    requires forall i :: 0 <= i < |more| && more[i].chain == Some(mint) ==> mint in cells'
    ensures forall i :: 0 <= i < |born + more| && (born + more)[i].chain.Some? ==> (born + more)[i].chain.value in cells'
  {
    forall i | 0 <= i < |born + more| && (born + more)[i].chain.Some? ensures (born + more)[i].chain.value in cells' {
      assert (born + more)[i] == if i < |born| then born[i] else more[i - |born|];
    }
  }

  lemma GrowthKeepsBudgets<C(!new)>(p: Policy, s: Crawl<C>, s': Crawl<C>, q: nat, mint: C, more: seq<Item<C>>)
    requires Budgets(p, s) && q < |s.born| && s'.born == s.born + more
    requires Children(p, s.born[q], mint, more) && Paid(p, s.born[q], s.f, s'.f, more)
    requires forall i :: 0 <= i < |more| && more[i].chain == Some(mint) ==> mint in s'.f.cells
    requires s'.structural == s.structural + Copies(s.born[q].chain, Structural(more))
    ensures Budgets(p, s')
  {
    GrowthKeepsCells(p, s.born, s.f.cells.Keys, s'.f.cells.Keys, q, mint, more);
  }

  lemma GrowthKeepsDepths<C(!new)>(p: Policy, born: seq<Item<C>>, q: nat, mint: C, more: seq<Item<C>>)
    requires DepthsBounded(p, born) && q < |born| && Children(p, born[q], mint, more)
    requires p.maxDepth == 0 || born[q].depth < p.maxDepth
    ensures DepthsBounded(p, born + more)
  {
    forall i | 0 <= i < |born + more| && p.maxDepth > 0 ensures (born + more)[i].depth <= p.maxDepth {
      if i >= |born| {
        assert (born + more)[i] == more[i - |born|];
      }
    }
  }

  /** s' is s after the q-th page of the history enqueued the pages `more`. */
  ghost predicate Expands<C(!new)>(p: Policy, s: Crawl<C>, s': Crawl<C>, q: nat, mint: C, more: seq<Item<C>>) {
    && q < |s.born| && s.born[q].counter !in s.expanded && mint !in s.f.cells
    && (p.maxDepth == 0 || s.born[q].depth < p.maxDepth)
    && Children(p, s.born[q], mint, more) && Paid(p, s.born[q], s.f, s'.f, more)
    && (forall i :: 0 <= i < |more| && more[i].chain == Some(mint) ==> mint in s'.f.cells)
    && s'.expanded == s.expanded + {s.born[q].counter}
    && s'.born == s.born + more
    && s'.structural == s.structural + Copies(s.born[q].chain, Structural(more))
  }

  lemma DiscoverExpands<C(!new)>(p: Policy, workers: nat, s: Crawl<C>, step: Step<C>) returns (q: nat, more: seq<Item<C>>)
    requires Enabled(p, workers, s, step) && Books(p, s) && step.Discover?
    ensures Expands(p, s, Apply(p, workers, s, step), q, step.mint, more)
  {
    more := NewPages(p, s, step);
    q := PageInHistory(p, s, step.page);
  }

  lemma ExpansionKeepsChains<C(!new)>(p: Policy, s: Crawl<C>, s': Crawl<C>, q: nat, mint: C, more: seq<Item<C>>)
    requires Paths(p, s.born, s.expanded) && Budgets(p, s) && DepthsBounded(p, s.born)
    requires Expands(p, s, s', q, mint, more)
    ensures Paths(p, s'.born, s'.expanded) && Budgets(p, s') && DepthsBounded(p, s'.born)
  {
    GrowthKeepsPaths(p, s.born, s.expanded, q, mint, more);
    GrowthKeepsBudgets(p, s, s', q, mint, more);
    GrowthKeepsDepths(p, s.born, q, mint, more);
  }

  lemma OtherStepsKeepHistory<C(!new)>(p: Policy, workers: nat, s: Crawl<C>, step: Step<C>)
    requires Enabled(p, workers, s, step) && !step.Discover?
    ensures var s' := Apply(p, workers, s, step);
            s'.born == s.born && s'.expanded == s.expanded && s'.structural == s.structural && s'.f.cells == s.f.cells
  {
  }

  lemma SameHistorySameChains<C(!new)>(p: Policy, s: Crawl<C>, s': Crawl<C>)
    requires Paths(p, s.born, s.expanded) && Budgets(p, s) && DepthsBounded(p, s.born)
    requires s'.born == s.born && s'.expanded == s.expanded && s'.structural == s.structural && s'.f.cells == s.f.cells
    ensures Paths(p, s'.born, s'.expanded) && Budgets(p, s') && DepthsBounded(p, s'.born)
  {
    forall c ensures Spent(s'.f, c) == Spent(s.f, c) {}
  }

  lemma StepKeepsChainInv<C(!new)>(p: Policy, workers: nat, s: Crawl<C>, step: Step<C>, s': Crawl<C>)
    requires Enabled(p, workers, s, step) && ChainInv(p, s) && s' == Apply(p, workers, s, step)
    ensures ChainInv(p, s')
  {
    StepKeepsBooks(p, workers, s, step);
    if step.Discover? {
      var q, more := DiscoverExpands(p, workers, s, step);
      ExpansionKeepsChains(p, s, s', q, step.mint, more);
    } else {
      OtherStepsKeepHistory(p, workers, s, step);
      SameHistorySameChains(p, s, s');
    }
  }

  /** How many pages of the history share cell c. */
  ghost function ChainLength<C(!new)>(born: seq<Item<C>>, c: C): nat {
    |set i | 0 <= i < |born| && born[i].chain == Some(c)|
  }

  lemma PathIsShort<C(!new)>(p: Policy, born: seq<Item<C>>, expanded: set<nat>, c: C)
    requires Paths(p, born, expanded)
    ensures ChainLength(born, c) <= if p.maxPages > 0 then p.maxPages else 0
  {
    var chain := set i | 0 <= i < |born| && born[i].chain == Some(c);
    var rank: map<int, int> := map i | i in chain :: born[i].hops;
    forall i, j | i in chain && j in chain && rank[i] == rank[j] ensures i == j {
      if i < j {
        assert SameChain(born[i], born[j]);
      } else if j < i {
        assert SameChain(born[j], born[i]);
      }
    }
    if p.maxPages > 0 {
      InjectionBound(chain, rank, 1, p.maxPages + 1);
    } else {
      assert forall i :: i !in chain;
    }
  }

  /**
   In every run from seeds: pages sharing a cell form a path of at most
   max_pagination_pages pages, together they enqueue exactly as many structural
   children as the cell says and at most max_chain_children, and with a positive
   max_depth no page lies deeper.
   */
  lemma {:induction false} ChainsBounded<C(!new)>(p: Policy, workers: nat, s: Crawl<C>, steps: seq<Step<C>>)
    requires SeedsOnly(p, s) && Legal(p, workers, s, steps)
    ensures ChainInv(p, Run(p, workers, s, steps))
    ensures forall c :: ChainLength(Run(p, workers, s, steps).born, c) <= if p.maxPages > 0 then p.maxPages else 0
  {
    if steps != [] {
      ChainsBounded(p, workers, s, steps[..|steps| - 1]);
      StepKeepsChainInv(p, workers, Run(p, workers, s, steps[..|steps| - 1]), steps[|steps| - 1], Run(p, workers, s, steps));
    }
    var last := Run(p, workers, s, steps);
    forall c ensures ChainLength(last.born, c) <= if p.maxPages > 0 then p.maxPages else 0 {
      PathIsShort(p, last.born, last.expanded, c);
    }
  }

  /** A crawl of the given seeds starts as these bounds require. */
  lemma CrawlFromSeeds<C(!new)>(p: Policy, bootstrap: set<string>, seeds: seq<(string, Option<int>)>)
    ensures SeedsOnly(p, Start(SeedAll<C>(p, NoPages(bootstrap), seeds)))
  {
    SeedsEnqueued<C>(p, bootstrap, seeds);
    FreshBooks(p, SeedAll<C>(p, NoPages(bootstrap), seeds));
  }
}
