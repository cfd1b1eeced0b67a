/** The running engine: the frontier on the heap, with budget cells as shared mutable objects. */
module Engine {
  import opened Prelude
  import F = Frontier
  import opened Crawl
  import opened Checkpoint

  /** A one-element budget list shared by the pages of a chain; id stands for the object's identity. */
  class BudgetCell {
    const id: nat
    var spent: nat

    constructor (id: nat, spent: nat)
      ensures this.id == id && this.spent == spent
    {
      this.id := id;
      this.spent := spent;
    }
  }

  type Page = F.Item<BudgetCell>

  function Identity(chain: Option<BudgetCell>): Option<nat> {
    if chain.None? then None else Some(chain.value.id)
  }

  function AbsItem(item: Page): F.Item<nat> {
    F.Item(item.priority, item.counter, item.url, item.depth, item.domain, item.isSeed, item.hops, Identity(item.chain))
  }

  function Abs(items: seq<Page>): (abs: seq<F.Item<nat>>)
    ensures |abs| == |items| && forall i :: 0 <= i < |items| ==> abs[i] == AbsItem(items[i])
  {
    seq(|items|, i requires 0 <= i < |items| => AbsItem(items[i]))
  }

  lemma AbsAppend(items: seq<Page>, item: Page)
    ensures Abs(items + [item]) == Abs(items) + [AbsItem(item)]
  {
  }

  lemma AbsCut(items: seq<Page>, k: nat)
    requires k < |items|
    ensures Abs(items[..k] + items[k + 1..]) == Abs(items)[..k] + Abs(items)[k + 1..]
  {
  }

  /** The first accepted link that says "next", or else the first accepted link. */
  method ElectPaginationTarget(p: F.Policy, links: seq<F.RawLink>) returns (target: Option<string>)
    ensures target == F.Target(p, links)
    ensures !p.paginationOn ==> target == None
    ensures p.paginationOn && (forall i :: 0 <= i < |links| ==> !p.isPagination(links[i])) ==> target == None
    ensures forall i :: p.paginationOn && 0 <= i < |links| && p.isPagination(links[i]) && "next" in links[i].rel
                        && (forall j :: 0 <= j < i && p.isPagination(links[j]) ==> "next" !in links[j].rel)
              ==> target == Some(links[i].url)
    ensures forall i :: p.paginationOn && 0 <= i < |links| && p.isPagination(links[i])
                        && (forall j :: 0 <= j < i ==> !p.isPagination(links[j]))
                        && (forall j :: 0 <= j < |links| && p.isPagination(links[j]) ==> "next" !in links[j].rel)
              ==> target == Some(links[i].url)
  {
    if !p.paginationOn {
      return None;
    }
    var first: Option<string> := None;
    var i := 0;
    while i < |links|
      invariant 0 <= i <= |links|
      invariant forall j :: 0 <= j < i && p.isPagination(links[j]) ==> "next" !in links[j].rel
      invariant first.None? <==> forall j :: 0 <= j < i ==> !p.isPagination(links[j])
      invariant forall k :: 0 <= k < i && p.isPagination(links[k]) && (forall j :: 0 <= j < k ==> !p.isPagination(links[j]))
                  ==> first == Some(links[k].url)
      invariant forall j :: 0 <= j < |F.Accepted(p, links[..i])| ==> !F.SaysNext(F.Accepted(p, links[..i])[j])
      invariant first == if F.Accepted(p, links[..i]) == [] then None else Some(F.Accepted(p, links[..i])[0].url)
    {
      ghost var before := F.Accepted(p, links[..i]);
      assert links[..i + 1][..i] == links[..i];
      if p.isPagination(links[i]) {
        assert F.Accepted(p, links[..i + 1]) == before + [links[i]];
        if "next" in links[i].rel {
          AcceptedSplits(p, links, i + 1);
          FirstNextIs(before, links[i], F.Accepted(p, links[i + 1..]));
          return Some(links[i].url);
        }
        if first.None? {
          first := Some(links[i].url);
        }
      }
      i := i + 1;
    }
    assert links[..i] == links;
    return first;
  }

  lemma {:induction false} AcceptedSplits(p: F.Policy, links: seq<F.RawLink>, k: nat)
    requires k <= |links|
    ensures F.Accepted(p, links) == F.Accepted(p, links[..k]) + F.Accepted(p, links[k..])
    decreases |links| - k
  {
    if k == |links| {
      assert links[..k] == links;
    } else if |links| > 0 {
      var shorter := links[..|links| - 1];
      AcceptedSplitsLast(p, shorter, links[|links| - 1], k);
      assert links == shorter + [links[|links| - 1]];
    }
  }

  lemma {:induction false} AcceptedSplitsLast(p: F.Policy, shorter: seq<F.RawLink>, last: F.RawLink, k: nat)
    requires k <= |shorter|
    ensures F.Accepted(p, shorter + [last]) == F.Accepted(p, (shorter + [last])[..k]) + F.Accepted(p, (shorter + [last])[k..])
    decreases |shorter|
  {
    var all := shorter + [last];
    assert all[..|all| - 1] == shorter;
    assert all[..k] == shorter[..k];
    assert all[k..][..|all[k..]| - 1] == shorter[k..];
    if k == |shorter| {
      assert shorter[..k] == shorter;
    } else {
      var init := shorter[..|shorter| - 1];
      assert shorter == init + [shorter[|shorter| - 1]];
      AcceptedSplitsLast(p, init, shorter[|shorter| - 1], k);
    }
  }

  lemma {:induction false} FirstNextIs(before: seq<F.RawLink>, link: F.RawLink, after: seq<F.RawLink>)
    requires forall i :: 0 <= i < |before| ==> !F.SaysNext(before[i])
    requires F.SaysNext(link)
    ensures F.Preferred(before + [link] + after) == Some(link.url)
  {
    var all := before + [link] + after;
    assert F.SaysNext(all[|before|]);
    var first := F.FirstNext(all);
    var k :| 0 <= k < |all| && first == all[k] && forall j :: 0 <= j < k ==> !F.SaysNext(all[j]);
    assert k >= |before|;
    assert k == |before|;
  }

  /** Once the loop has broken off, further links change nothing. */
  lemma {:induction false} StoppedScan<C>(p: F.Policy, page: F.Item<C>, domain: Option<int>, target: Option<string>, mint: C,
                                          s: F.Scan<C>, links: seq<F.RawLink>, k: nat)
    requires k <= |links| && F.ScanLinks(p, page, domain, target, mint, s, links[..k]).stopped
    ensures F.ScanLinks(p, page, domain, target, mint, s, links) == F.ScanLinks(p, page, domain, target, mint, s, links[..k])
    decreases |links|
  {
    if k == |links| {
      assert links[..k] == links;
    } else {
      var shorter := links[..|links| - 1];
      assert shorter[..k] == links[..k];
      StoppedScan(p, page, domain, target, mint, s, shorter, k);
    }
  }

  class CrawlerEngine {
    var pending: seq<Page>
    var queued: set<nat>
    var unfinished: nat
    var visited: set<string>
    var counter: nat
    var skipped: nat
    var nextCell: nat
    ghost var cells: set<BudgetCell>
    ghost var spent: map<nat, nat>

    ghost predicate Valid()
      reads this, cells
    {
      && (forall c :: c in cells ==> c.id in spent && spent[c.id] == c.spent)
      && (forall c, d :: c in cells && d in cells && c.id == d.id ==> c == d)
      && (forall k :: k in spent ==> k < nextCell)
      && (forall i :: 0 <= i < |pending| && pending[i].chain.Some? ==> pending[i].chain.value in cells)
    }

    /** The frontier as a value, cells named by their identity. */
    ghost function View(): F.Frontier<nat>
      reads this
    {
      F.Frontier(Abs(pending), queued, unfinished, visited, counter, skipped, spent)
    }

    constructor (bootstrap: set<string>)
      ensures Valid() && View() == F.Frontier([], {}, 0, bootstrap, 0, 0, map[]) && cells == {}
    {
      pending, queued, unfinished, visited, counter, skipped, nextCell := [], {}, 0, bootstrap, 0, 0, 0;
      cells, spent := {}, map[];
    }

    method Enqueue(p: F.Policy, url: string, depth: nat, domain: Option<int>, isSeed: bool, hops: nat, chain: Option<BudgetCell>)
      requires Valid() && (chain.Some? ==> chain.value in cells)
      modifies this
      ensures Valid() && cells == old(cells) && nextCell == old(nextCell)
      ensures View() == F.Enqueue(p, old(View()), url, depth, domain, isSeed, hops, Identity(chain))
    {
      if p.skippable(url) || !p.onTarget(url) || p.key(url) in visited {
        skipped := skipped + 1;
      } else {
        if !isSeed {
          visited := visited + {p.key(url)};
        }
        counter := counter + 1;
        Put(F.Item(p.urlPriority(url), counter, url, depth, domain, isSeed, hops, chain));
      }
    }

    /** Puts a page into the queue and the pending map. */
    method Put(item: Page)
      requires Valid() && (item.chain.Some? ==> item.chain.value in cells)
      modifies this`pending, this`queued, this`unfinished
      ensures Valid()
      ensures View() == old(View()).(pending := old(View()).pending + [AbsItem(item)],
                                     queued := old(queued) + {item.counter}, unfinished := old(unfinished) + 1)
    {
      AbsAppend(pending, item);
      pending := pending + [item];
      queued := queued + {item.counter};
      unfinished := unfinished + 1;
    }

    /** The chain of conditions at the top of the link loop. */
    method JudgeLink(p: F.Policy, page: Page, target: Option<string>, link: F.RawLink, linksAdded: nat) returns (verdict: F.Verdict)
      requires Valid() && (page.chain.Some? ==> page.chain.value in cells)
      ensures verdict == F.Judge(p, page.url, page.depth, page.isSeed, page.hops, F.Budget(View(), AbsItem(page)), target,
                                 visited, linksAdded, link)
    {
      var isPag := target.Some? && link.url == target.value;
      var maxLinks := p.maxLinks(page.depth);
      if !isPag && page.chain.None? && maxLinks > 0 && linksAdded >= maxLinks {
        return F.SkipLink(target.None?);
      }
      if p.skippable(link.url) || !p.onTarget(link.url) || p.key(link.url) in visited {
        return F.SkipLink(false);
      }
      if isPag {
        if page.hops >= p.maxPages {
          return F.SkipLink(false);
        }
        return F.NextPage;
      }
      if !page.isSeed && !p.isPriority(page.url, "") && !p.isPriority(link.url, link.text) {
        return F.SkipLink(false);
      }
      if page.chain.Some? && page.chain.value.spent >= p.maxChainChildren {
        return F.SkipLink(false);
      }
      return F.ChildPage;
    }

    /** The body of the link loop; `stop` is the loop's break. */
    method DiscoverLink(p: F.Policy, page: Page, domain: Option<int>, target: Option<string>, mint: BudgetCell,
                        link: F.RawLink, linksAdded: nat) returns (added: nat, stop: bool)
      requires Valid() && mint in cells && (page.chain.Some? ==> page.chain.value in cells)
      modifies this, cells
      ensures Valid() && cells == old(cells) && nextCell == old(nextCell)
      ensures F.Scan(View(), added, stop)
           == F.ScanLink(p, AbsItem(page), domain, target, mint.id, F.Scan(old(View()), linksAdded, false), link)
    {
      added, stop := linksAdded, false;
      var verdict := JudgeLink(p, page, target, link, linksAdded);
      match verdict {
        case SkipLink(breaks) =>
          skipped := skipped + 1;
          stop := breaks;
        case NextPage =>
          Enqueue(p, link.url, page.depth, domain, false, page.hops + 1,
                  Some(if page.chain.Some? then page.chain.value else mint));
        case ChildPage =>
          if page.chain.Some? {
            SpendFrom(page.chain.value);
          } else {
            added := linksAdded + 1;
          }
          Enqueue(p, link.url, page.depth + 1, domain, false, page.hops, None);
      }
    }

    method SpendFrom(cell: BudgetCell)
      requires Valid() && cell in cells
      modifies this`spent, cell
      ensures Valid() && View() == F.Pay(old(View()), cell.id)
    {
      cell.spent := cell.spent + 1;
      spent := spent[cell.id := cell.spent];
    }

    /** A fresh budget list, known to nobody yet. */
    method MintCell(value: nat) returns (cell: BudgetCell)
      requires Valid()
      modifies this`cells, this`spent, this`nextCell
      ensures Valid() && fresh(cell) && cells == old(cells) + {cell} && cell.id == old(nextCell) && nextCell == old(nextCell) + 1
      ensures cell.id !in old(spent) && View() == old(View()).(cells := old(spent)[cell.id := value])
    {
      cell := new BudgetCell(nextCell, value);
      cells := cells + {cell};
      spent := spent[nextCell := value];
      nextCell := nextCell + 1;
    }

    /** The link loop. */
    method DiscoverLinks(p: F.Policy, page: Page, domain: Option<int>, target: Option<string>, mint: BudgetCell, links: seq<F.RawLink>)
      requires Valid() && mint in cells && (page.chain.Some? ==> page.chain.value in cells)
      modifies this, cells
      ensures Valid() && cells == old(cells) && nextCell == old(nextCell)
      ensures View() == F.ScanLinks(p, AbsItem(page), domain, target, mint.id, F.Scan(old(View()), 0, false), links).f
    {
      ghost var start := F.Scan(View(), 0, false);
      var added, stop := 0, false;
      var i := 0;
      while i < |links| && !stop
        invariant 0 <= i <= |links|
        invariant Valid() && cells == old(cells) && nextCell == old(nextCell)
        invariant F.Scan(View(), added, stop) == F.ScanLinks(p, AbsItem(page), domain, target, mint.id, start, links[..i])
      {
        added, stop := DiscoverLink(p, page, domain, target, mint, links[i], added);
        assert links[..i + 1][..i] == links[..i];
        i := i + 1;
      }
      if stop {
        StoppedScan(p, AbsItem(page), domain, target, mint.id, start, links, i);
      } else {
        assert links[..i] == links;
      }
    }

    /**
     Link discovery of one page. The list a new chain would start with is created up
     front; when no chain starts nothing refers to it.
     */
    method EnqueueLinks(p: F.Policy, page: Page, domain: Option<int>, links: seq<F.RawLink>, backpressured: bool)
      requires Valid() && (page.chain.Some? ==> page.chain.value in cells)
      modifies this, cells
      ensures Valid() && fresh(cells - old(cells)) && old(cells) <= cells
      ensures old(nextCell) !in old(spent)
      ensures View() == F.EnqueueLinks(p, old(View()), AbsItem(page), domain, links, backpressured, old(nextCell))
    {
      if backpressured {
        skipped := skipped + |links|;
        return;
      }
      var target := ElectPaginationTarget(p, links);
      var mint := MintCell(0);
      DiscoverLinks(p, page, domain, target, mint, links);
    }

    /** Takes the queued page that comes first in the queue's order. */
    method TakeNext() returns (n: nat)
      requires queued != {} && queued <= F.Counters(Abs(pending)) && Ascending(Abs(pending), counter)
      modifies this`queued
      ensures IsNext(old(View()), n)
      ensures View() == old(View()).(queued := old(queued) - {n})
      ensures forall m :: m in old(queued) && m != n ==>
                var a, b := PageOf(old(View()), n), PageOf(old(View()), m);
                a.counter == n && b.counter == m && (a.priority < b.priority || (a.priority == b.priority && n < m))
    {
      var best: nat := 0;
      var found := false;
      var i := 0;
      while i < |pending|
        invariant 0 <= i <= |pending|
        invariant found ==> best < i && pending[best].counter in queued
        invariant forall j :: 0 <= j < i && pending[j].counter in queued ==>
                    found && (j != best ==> Before(Abs(pending)[best], Abs(pending)[j]))
      {
        if pending[i].counter in queued && (!found || Before(pending[i], pending[best])) {
          best, found := i, true;
        }
        i := i + 1;
      }
      assert found by {
        var m := Member(queued);
        assert m in F.Counters(Abs(pending));
        var j :| 0 <= j < |Abs(pending)| && Abs(pending)[j].counter == m;
      }
      n := pending[best].counter;
      ghost var f := View();
      assert PageOf(f, n) == Abs(pending)[best];
      forall m | m in f.queued && m != n ensures Before(PageOf(f, n), PageOf(f, m)) {
        assert PageOf(f, m) == Abs(pending)[IndexOf(f.pending, m)];
      }
      queued := queued - {n};
    }

    method PlaceOf(n: nat) returns (k: nat)
      requires n in F.Counters(Abs(pending))
      ensures k < |pending| && k == IndexOf(Abs(pending), n)
    {
      SamePlace(pending, n);
      ghost var place := IndexOf(Abs(pending), n);
      k := 0;
      while pending[k].counter != n
        invariant 0 <= k <= place < |pending| && pending[place].counter == n
        invariant forall j :: 0 <= j < k ==> pending[j].counter != n
        decreases |pending| - k
      {
        k := k + 1;
      }
      IndexIsFirst(Abs(pending), n, k);
    }

    /** A worker is done with a page: it leaves the pending map and the queue counts one page less. */
    method FinishPage(n: nat)
      requires Valid() && n in F.Counters(Abs(pending)) && unfinished > 0
      modifies this`pending, this`unfinished
      ensures Valid()
      ensures View() == old(View()).(pending := Without(old(View()).pending, n), unfinished := old(unfinished) - 1)
    {
      var k := PlaceOf(n);
      AbsCut(pending, k);
      pending := pending[..k] + pending[k + 1..];
      unfinished := unfinished - 1;
    }

    /** Writes the pending pages down, naming each budget list the first time a page mentions it. */
    method SaveCheckpoint() returns (snap: Snapshot)
      requires Valid()
      ensures snap == Save(View())
    {
      ghost var f := View();
      var keys: map<nat, nat> := map[];
      var chains: map<nat, nat> := map[];
      var items: seq<SavedItem> := [];
      var i := 0;
      while i < |pending|
        invariant 0 <= i <= |pending|
        invariant Saving(keys, chains, items) == SaveItems(f, i)
      {
        var item := pending[i];
        var chainKey := None;
        if item.chain.Some? {
          var cell := item.chain.value;
          if cell.id !in keys {
            chains := chains[|keys| := cell.spent];
            keys := keys[cell.id := |keys|];
          }
          chainKey := Some(keys[cell.id]);
        }
        items := items + [SavedItem(item.priority, item.counter, item.url, item.depth, item.domain, item.isSeed, item.hops, chainKey)];
        assert f.pending[i] == AbsItem(item);
        i := i + 1;
      }
      snap := Snapshot(visited, counter, skipped, chains, items);
    }

    /** Puts one saved item back, pointing at the list of its chain key. */
    method RehydrateItem(it: SavedItem, objects: map<nat, BudgetCell>, ghost names: map<nat, nat>)
      requires Valid() && objects.Values <= cells && objects.Keys == names.Keys
      requires forall k :: k in objects ==> objects[k].id == names[k]
      modifies this`pending, this`queued, this`unfinished
      ensures Valid()
      ensures View() == old(View()).(pending := old(View()).pending + [Rebuild(it, names)],
                                     queued := old(queued) + {it.counter}, unfinished := old(unfinished) + 1)
    {
      var chain := None;
      if it.chainKey.Some? && it.chainKey.value in objects {
        chain := Some(objects[it.chainKey.value]);
      }
      var item := F.Item(it.priority, it.counter, it.url, it.depth, it.domain, it.isSeed, it.hops, chain);
      Put(item);
    }

    /** All items of a snapshot, in order. */
    method RehydrateItems(items: seq<SavedItem>, objects: map<nat, BudgetCell>, ghost names: map<nat, nat>)
      requires Valid() && objects.Values <= cells && objects.Keys == names.Keys
      requires forall k :: k in objects ==> objects[k].id == names[k]
      requires pending == [] && queued == {} && unfinished == 0
      modifies this`pending, this`queued, this`unfinished
      ensures Valid() && ItemsBack(items, names, View())
    {
      var i := 0;
      while i < |items|
        invariant 0 <= i <= |items| && Valid()
        invariant |View().pending| == unfinished == i && queued == F.Counters(View().pending)
        invariant forall j :: 0 <= j < i ==> View().pending[j] == Rebuild(items[j], names)
      {
        JoinOne(View().pending, Rebuild(items[i], names));
        RehydrateItem(items[i], objects, names);
        i := i + 1;
      }
    }

    /**
     Rebuilds the frontier in a fresh engine: first one budget list per chain key, then
     the items, each pointing at the list of its key. `names` gives each key's list.
     */
    method RehydrateFrontier(snap: Snapshot) returns (ghost names: map<nat, nat>)
      requires Valid() && pending == [] && queued == {} && unfinished == 0 && counter == 0
      modifies this
      ensures Valid() && fresh(cells - old(cells)) && old(cells) <= cells
      ensures Rebuilt(snap, old(visited), names, View())
    {
      visited := visited + snap.visited;
      counter := snap.counter;
      skipped := snap.skipped;
      var objects: map<nat, BudgetCell>;
      objects, names := MintChains(snap.chains);
      RehydrateItems(snap.items, objects, names);
    }

    /** One fresh list per chain key, holding the saved value. */
    method MintChains(chains: map<nat, nat>) returns (objects: map<nat, BudgetCell>, ghost names: map<nat, nat>)
      requires Valid()
      modifies this`cells, this`spent, this`nextCell
      ensures Valid() && cells == old(cells) + objects.Values && fresh(objects.Values)
      ensures objects.Keys == names.Keys && forall k :: k in objects ==> objects[k].id == names[k]
      ensures ChainsBack(chains, names, spent)
    {
      objects, names := map[], map[];
      var left := chains.Keys;
      while left != {}
        invariant left <= chains.Keys && Valid() && cells == old(cells) + objects.Values && fresh(objects.Values)
        invariant objects.Keys == names.Keys == chains.Keys - left
        invariant forall k :: k in objects ==> objects[k].id == names[k] && names[k] in spent && spent[names[k]] == chains[k]
        invariant forall k, l :: k in names && l in names && names[k] == names[l] ==> k == l
        decreases left
      {
        var k :| k in left;
        var cell := MintCell(chains[k]);
        ghost var before := objects;
        objects := objects[k := cell];
        names := names[k := cell.id];
        ValuesAfter(before, k, cell);
        left := left - {k};
      }
    }
  }

  lemma ValuesAfter<K, V>(m: map<K, V>, k: K, v: V)
    requires k !in m
    ensures m[k := v].Values == m.Values + {v}
  {
    var m' := m[k := v];
    forall x | x in m.Values ensures x in m'.Values {
      var l :| l in m && m[l] == x;
      assert m'[l] == x;
    }
    assert m'[k] == v;
  }

  lemma JoinOne(items: seq<F.Item<nat>>, item: F.Item<nat>)
    ensures F.Counters(items + [item]) == F.Counters(items) + {item.counter}
  {
    F.JoinedCounters(items, [item]);
    assert [item][0] == item;
    assert F.Counters([item]) == {item.counter};
  }

  lemma SamePlace(items: seq<Page>, n: nat)
    requires n in F.Counters(Abs(items))
    ensures IndexOf(Abs(items), n) < |items| && items[IndexOf(Abs(items), n)].counter == n
  {
  }

  lemma {:induction false} IndexIsFirst<C>(items: seq<F.Item<C>>, n: nat, k: nat)
    requires k < |items| && items[k].counter == n && forall j :: 0 <= j < k ==> items[j].counter != n
    ensures IndexOf(items, n) == k
  {
    if k > 0 {
      assert items[0].counter != n;
      IndexIsFirst(items[1..], n, k - 1);
    }
  }
}
