/**
 Checkpoint and resume: a snapshot names each budget cell by the order in which the
 pending pages first mention it, and a resume builds one new cell per name.
 */
module Checkpoint {
  import opened Prelude
  import opened Frontier
  import opened Crawl

  datatype SavedItem = SavedItem(
    priority: nat, counter: nat, url: string, depth: nat, domain: Option<int>, isSeed: bool, hops: nat, chainKey: Option<nat>)

  /** chainKey k stands for the k-th chain key of the stored document. */
  datatype Snapshot = Snapshot(visited: set<string>, counter: nat, skipped: nat, chains: map<nat, nat>, items: seq<SavedItem>)

  /** State of the saving loop: the name of each cell seen, its value, and the items written. */
  datatype Saving<C> = Saving(keys: map<C, nat>, chains: map<nat, nat>, items: seq<SavedItem>)

  function Saved<C>(item: Item<C>, chainKey: Option<nat>): SavedItem {
    SavedItem(item.priority, item.counter, item.url, item.depth, item.domain, item.isSeed, item.hops, chainKey)
  }

  function SaveItem<C(==)>(f: Frontier<C>, s: Saving<C>, item: Item<C>): Saving<C> {
    if item.chain.None? then
      s.(items := s.items + [Saved(item, None)])
    else
      var c := item.chain.value;
      var named := if c in s.keys then s
                   else s.(keys := s.keys[c := |s.keys|], chains := s.chains[|s.keys| := Spent(f, c)]);
      named.(items := s.items + [Saved(item, Some(named.keys[c]))])
  }

  function SaveItems<C(==)>(f: Frontier<C>, n: nat): Saving<C>
    requires n <= |f.pending|
  {
    if n == 0 then Saving(map[], map[], [])
    else SaveItem(f, SaveItems(f, n - 1), f.pending[n - 1])
  }

  function Save<C(==)>(f: Frontier<C>): Snapshot {
    var s := SaveItems(f, |f.pending|);
    Snapshot(f.visited, f.counter, f.skipped, s.chains, s.items)
  }

  // ---- what a snapshot says ----

  /** Names are 0, 1, 2, ... without gaps, one per cell, and each carries its cell's value. */
  ghost predicate Naming<C(!new)>(f: Frontier<C>, keys: map<C, nat>, chains: map<nat, nat>) {
    && (forall c :: c in keys ==> keys[c] < |keys|)
    && (forall k: nat :: k in chains <==> k < |keys|)
    && (forall c :: c in keys ==> chains[keys[c]] == Spent(f, c))
    && (forall c, d :: c in keys && d in keys && keys[c] == keys[d] ==> c == d)
  }

  /** The n items written are the first n pending pages, their cells replaced by names. */
  ghost predicate Named<C(!new)>(f: Frontier<C>, s: Saving<C>, n: nat)
    requires n <= |f.pending|
  {
    && |s.items| == n
    && (forall i :: 0 <= i < n && f.pending[i].chain.Some? ==> f.pending[i].chain.value in s.keys)
    && (forall i :: 0 <= i < n ==>
          s.items[i] == Saved(f.pending[i], if f.pending[i].chain.None? then None else Some(s.keys[f.pending[i].chain.value])))
  }

  lemma NameFresh<C(!new)>(f: Frontier<C>, keys: map<C, nat>, chains: map<nat, nat>, c: C)
    requires Naming(f, keys, chains) && c !in keys
    ensures Naming(f, keys[c := |keys|], chains[|keys| := Spent(f, c)])
  {
    var keys', chains', n := keys[c := |keys|], chains[|keys| := Spent(f, c)], |keys|;
    assert |keys'| == n + 1 by {
      assert keys'.Keys == keys.Keys + {c};
      assert |keys'.Keys| == |keys.Keys| + 1;
    }
    forall k: nat ensures k in chains' <==> k < n + 1 {
      assert k in chains <==> k < n;
    }
    forall x | x in keys' ensures keys'[x] < n + 1 && chains'[keys'[x]] == Spent(f, x) {
      if x != c {
        assert keys'[x] == keys[x] < n;
      }
    }
    forall x, y | x in keys' && y in keys' && keys'[x] == keys'[y] ensures x == y {
      if x != c && y != c {
        assert keys[x] == keys[y];
      }
    }
  }

  lemma SaveItemNames<C(!new)>(f: Frontier<C>, s: Saving<C>, n: nat)
    requires n < |f.pending| && Naming(f, s.keys, s.chains) && Named(f, s, n)
    ensures var s' := SaveItem(f, s, f.pending[n]);
            Naming(f, s'.keys, s'.chains) && Named(f, s', n + 1)
  {
    var item, s' := f.pending[n], SaveItem(f, s, f.pending[n]);
    if item.chain.Some? && item.chain.value !in s.keys {
      NameFresh(f, s.keys, s.chains, item.chain.value);
    }
    assert forall c :: c in s.keys ==> c in s'.keys && s'.keys[c] == s.keys[c];
    forall i | 0 <= i < n + 1
      ensures f.pending[i].chain.Some? ==> f.pending[i].chain.value in s'.keys
      ensures s'.items[i] == Saved(f.pending[i], if f.pending[i].chain.None? then None else Some(s'.keys[f.pending[i].chain.value]))
    {
      if i < n {
        assert s'.items[i] == s.items[i];
      }
    }
  }

  lemma {:induction false} SaveItemsNames<C(!new)>(f: Frontier<C>, n: nat)
    requires n <= |f.pending|
    ensures Naming(f, SaveItems(f, n).keys, SaveItems(f, n).chains)
    ensures Named(f, SaveItems(f, n), n)
  {
    if n > 0 {
      SaveItemsNames(f, n - 1);
      SaveItemNames(f, SaveItems(f, n - 1), n - 1);
    } else {
      assert |SaveItems(f, n).keys| == 0;
    }
  }

  // ---- isomorphic frontiers ----

  /** Two pages agree on everything but the identity of their cell. */
  predicate SameRecord<A, B>(a: Item<A>, b: Item<B>) {
    && a.priority == b.priority && a.counter == b.counter && a.url == b.url && a.depth == b.depth
    && a.domain == b.domain && a.isSeed == b.isSeed && a.hops == b.hops && (a.chain.None? <==> b.chain.None?)
  }

  /** Cell a plays the same role among f's pending pages as cell b among g's, with the same value. */
  ghost predicate Matched<A(!new), B(!new)>(f: Frontier<A>, g: Frontier<B>, a: A, b: B) {
    && Spent(f, a) == Spent(g, b)
    && |f.pending| == |g.pending|
    && forall i :: 0 <= i < |f.pending| ==> (f.pending[i].chain == Some(a) <==> g.pending[i].chain == Some(b))
  }

  /** Same scalars, same pages in the same order, and the same pages sharing cells of the same values. */
  ghost predicate Iso<A(!new), B(!new)>(f: Frontier<A>, g: Frontier<B>) {
    && f.visited == g.visited && f.counter == g.counter && f.skipped == g.skipped
    && |f.pending| == |g.pending|
    && (forall i :: 0 <= i < |f.pending| ==> SameRecord(f.pending[i], g.pending[i]))
    && (forall i :: 0 <= i < |f.pending| && f.pending[i].chain.Some? ==>
          Matched(f, g, f.pending[i].chain.value, g.pending[i].chain.value))
  }

  /** Two pages of f share a cell exactly when the same two pages of g do, and the cells have equal values. */
  lemma IsoAliasing<A(!new), B(!new)>(f: Frontier<A>, g: Frontier<B>, i: nat, j: nat)
    requires Iso(f, g) && i < |f.pending| && j < |f.pending|
    ensures f.pending[i].chain.Some? && f.pending[j].chain.Some? ==>
              && (f.pending[i].chain == f.pending[j].chain <==> g.pending[i].chain == g.pending[j].chain)
              && Spent(f, f.pending[i].chain.value) == Spent(g, g.pending[i].chain.value)
  {
    if f.pending[i].chain.Some? && f.pending[j].chain.Some? {
      assert Matched(f, g, f.pending[i].chain.value, g.pending[i].chain.value);
    }
  }

  /** The two saving loops name matched cells alike. */
  ghost predicate NamedAlike<A(!new), B(!new)>(f: Frontier<A>, g: Frontier<B>, s: Saving<A>, t: Saving<B>)
    requires |f.pending| == |g.pending|
  {
    && s.chains == t.chains && s.items == t.items && |s.keys| == |t.keys|
    && forall i :: 0 <= i < |f.pending| && f.pending[i].chain.Some? && g.pending[i].chain.Some? ==>
         var a, b := f.pending[i].chain.value, g.pending[i].chain.value;
         (a in s.keys <==> b in t.keys) && (a in s.keys ==> s.keys[a] == t.keys[b])
  }

  lemma SaveItemAlike<A(!new), B(!new)>(f: Frontier<A>, g: Frontier<B>, s: Saving<A>, t: Saving<B>, n: nat)
    requires Iso(f, g) && n < |f.pending| && NamedAlike(f, g, s, t)
    ensures NamedAlike(f, g, SaveItem(f, s, f.pending[n]), SaveItem(g, t, g.pending[n]))
  {
    assert SameRecord(f.pending[n], g.pending[n]);
    if f.pending[n].chain.Some? {
      assert Matched(f, g, f.pending[n].chain.value, g.pending[n].chain.value);
    }
  }

  lemma {:induction false} IsoSavesAlike<A(!new), B(!new)>(f: Frontier<A>, g: Frontier<B>, n: nat)
    requires Iso(f, g) && n <= |f.pending|
    ensures NamedAlike(f, g, SaveItems(f, n), SaveItems(g, n))
  {
    if n == 0 {
      NothingNamedAlike(f, g);
    } else {
      IsoSavesAlike(f, g, n - 1);
      SaveItemAlike(f, g, SaveItems(f, n - 1), SaveItems(g, n - 1), n - 1);
    }
  }

  lemma NothingNamedAlike<A(!new), B(!new)>(f: Frontier<A>, g: Frontier<B>)
    requires |f.pending| == |g.pending|
    ensures NamedAlike(f, g, SaveItems(f, 0), SaveItems(g, 0))
  {
  }

  /** A snapshot is the canonical form of a frontier: isomorphic frontiers are those with equal snapshots. */
  lemma SnapshotIsCanonical<A(!new), B(!new)>(f: Frontier<A>, g: Frontier<B>)
    ensures Save(f) == Save(g) <==> Iso(f, g)
  {
    if Iso(f, g) {
      IsoSavesAlike(f, g, |f.pending|);
    }
    if Save(f) == Save(g) {
      SaveItemsNames(f, |f.pending|);
      SaveItemsNames(g, |g.pending|);
      SavedAlikeIsIso(f, g, SaveItems(f, |f.pending|), SaveItems(g, |g.pending|));
    }
  }

  lemma SavedAlikeIsIso<A(!new), B(!new)>(f: Frontier<A>, g: Frontier<B>, s: Saving<A>, t: Saving<B>)
    requires f.visited == g.visited && f.counter == g.counter && f.skipped == g.skipped
    requires s.items == t.items && s.chains == t.chains && |f.pending| == |g.pending|
    requires Naming(f, s.keys, s.chains) && Named(f, s, |f.pending|)
    requires Naming(g, t.keys, t.chains) && Named(g, t, |g.pending|)
    ensures Iso(f, g)
  {
    forall i | 0 <= i < |f.pending|
      ensures SameRecord(f.pending[i], g.pending[i])
      ensures f.pending[i].chain.Some? ==> s.keys[f.pending[i].chain.value] == t.keys[g.pending[i].chain.value]
    {
      assert s.items[i] == t.items[i];
    }
    forall i | 0 <= i < |f.pending| && f.pending[i].chain.Some?
      ensures Matched(f, g, f.pending[i].chain.value, g.pending[i].chain.value)
    {
      forall j | 0 <= j < |f.pending|
        ensures f.pending[j].chain == f.pending[i].chain <==> g.pending[j].chain == g.pending[i].chain
      {
        assert SameRecord(f.pending[j], g.pending[j]);
      }
    }
  }

  // ---- resume ----

  /** The page an item stands for; a key the document has no budget for leaves it without a cell. */
  function Rebuild<C>(s: SavedItem, cells: map<nat, C>): Item<C> {
    Item(s.priority, s.counter, s.url, s.depth, s.domain, s.isSeed, s.hops,
         if s.chainKey.Some? && s.chainKey.value in cells then Some(cells[s.chainKey.value]) else None)
  }

  /**
   g is what a resume builds from a snapshot in an engine that had already visited
   `bootstrap`: one fresh cell per chain key, shared by the items that name it, and
   every item queued again.
   */
  ghost predicate Rebuilt<C(!new)>(snap: Snapshot, bootstrap: set<string>, cells: map<nat, C>, g: Frontier<C>) {
    && g.visited == bootstrap + snap.visited && g.counter == snap.counter && g.skipped == snap.skipped
    && ChainsBack(snap.chains, cells, g.cells) && ItemsBack(snap.items, cells, g)
  }

  /** One cell per chain key, no two alike, each with its key's budget spent. */
  ghost predicate ChainsBack<C(!new)>(chains: map<nat, nat>, cells: map<nat, C>, spent: map<C, nat>) {
    && cells.Keys == chains.Keys
    && (forall k, l :: k in cells && l in cells && cells[k] == cells[l] ==> k == l)
    && (forall k :: k in cells ==> cells[k] in spent && spent[cells[k]] == chains[k])
  }

  ghost predicate ItemsBack<C(!new)>(items: seq<SavedItem>, cells: map<nat, C>, g: Frontier<C>) {
    && |g.pending| == |items|
    && (forall i :: 0 <= i < |items| ==> g.pending[i] == Rebuild(items[i], cells))
    && g.queued == Counters(g.pending) && g.unfinished == |g.pending|
  }

  /** A frontier that has visited some more keys. */
  function Widened<C>(f: Frontier<C>, more: set<string>): Frontier<C> {
    f.(visited := f.visited + more)
  }

  /** A saved page comes back as it was, with the new cell of its key for its own. */
  lemma RebuiltPage<A(!new), B(!new)>(f: Frontier<A>, s: Saving<A>, cells: map<nat, B>, g: Frontier<B>, i: nat)
    requires Naming(f, s.keys, s.chains) && Named(f, s, |f.pending|) && cells.Keys == s.chains.Keys
    requires i < |f.pending| == |g.pending| && g.pending[i] == Rebuild(s.items[i], cells)
    ensures SameRecord(f.pending[i], g.pending[i])
    ensures f.pending[i].chain.Some? ==>
              var c := f.pending[i].chain.value;
              c in s.keys && s.keys[c] in cells && g.pending[i].chain == Some(cells[s.keys[c]])
  {
    if f.pending[i].chain.Some? {
      assert s.keys[f.pending[i].chain.value] in s.chains;
    }
  }

  /** Two pages share a new cell exactly when they shared one before. */
  lemma RebuiltMatched<A(!new), B(!new)>(f: Frontier<A>, s: Saving<A>, cells: map<nat, B>, g: Frontier<B>, a: A)
    requires Naming(f, s.keys, s.chains) && Named(f, s, |f.pending|) && cells.Keys == s.chains.Keys
    requires |f.pending| == |g.pending| && forall i :: 0 <= i < |f.pending| ==> g.pending[i] == Rebuild(s.items[i], cells)
    requires forall k, l :: k in cells && l in cells && cells[k] == cells[l] ==> k == l
    requires a in s.keys && s.keys[a] in cells && Spent(g, cells[s.keys[a]]) == s.chains[s.keys[a]]
    ensures Matched(f, g, a, cells[s.keys[a]])
  {
    forall i | 0 <= i < |f.pending| ensures f.pending[i].chain == Some(a) <==> g.pending[i].chain == Some(cells[s.keys[a]]) {
      RebuiltPage(f, s, cells, g, i);
    }
  }

  lemma RebuiltIsIso<A(!new), B(!new)>(f: Frontier<A>, bootstrap: set<string>, cells: map<nat, B>, g: Frontier<B>)
    requires Rebuilt(Save(f), bootstrap, cells, g)
    ensures Iso(Widened(f, bootstrap), g)
  {
    var s, wide := SaveItems(f, |f.pending|), Widened(f, bootstrap);
    SaveItemsNames(f, |f.pending|);
    forall i | 0 <= i < |f.pending|
      ensures SameRecord(f.pending[i], g.pending[i])
      ensures f.pending[i].chain.Some? ==> Matched(wide, g, f.pending[i].chain.value, g.pending[i].chain.value)
    {
      RebuiltPage(f, s, cells, g, i);
      if f.pending[i].chain.Some? {
        RebuiltMatched(f, s, cells, g, f.pending[i].chain.value);
        assert Matched(f, g, f.pending[i].chain.value, g.pending[i].chain.value);
      }
    }
    assert g.visited == wide.visited;
  }

  /**
   What a resume gives, whatever the bootstrap: the saved frontier with the bootstrap's keys visited as
   well, up to the identity of cells, with everything pending queued again. It is the saved frontier
   itself exactly when the bootstrap brings no new key. The next counter is larger than every pending one.
   */
  lemma ResumeIsExact<A(!new), B(!new)>(f: Frontier<A>, bootstrap: set<string>, cells: map<nat, B>, g: Frontier<B>)
    requires Rebuilt(Save(f), bootstrap, cells, g)
    ensures Iso(Widened(f, bootstrap), g) && Save(g) == Save(Widened(f, bootstrap))
    ensures Iso(f, g) <==> bootstrap <= f.visited
    ensures Save(g) == Save(f) <==> bootstrap <= f.visited
    ensures g.queued == Counters(f.pending)
    ensures Ascending(f.pending, f.counter) ==> forall i :: 0 <= i < |g.pending| ==> g.pending[i].counter < g.counter + 1
  {
    var wide := Widened(f, bootstrap);
    RebuiltIsIso(f, bootstrap, cells, g);
    SnapshotIsCanonical(wide, g);
    SnapshotIsCanonical(f, g);
    SameCounters(wide, g);
    NothingWidened(f, bootstrap);
  }

  /** Every column of every page comes back, whatever snapshot and resume are built from. */
  lemma EveryColumnComesBack<A(!new), B(!new)>(f: Frontier<A>, bootstrap: set<string>, cells: map<nat, B>, g: Frontier<B>, i: nat)
    requires Rebuilt(Save(f), bootstrap, cells, g) && i < |f.pending|
    ensures |g.pending| == |f.pending|
    ensures var a, b := f.pending[i], g.pending[i];
            && b.priority == a.priority && b.counter == a.counter && b.url == a.url && b.depth == a.depth
            && b.domain == a.domain && b.isSeed == a.isSeed && b.hops == a.hops && (b.chain.None? <==> a.chain.None?)
            && (a.chain.Some? ==> Spent(g, b.chain.value) == Spent(f, a.chain.value))
            && forall j :: 0 <= j < |f.pending| ==> (g.pending[j].chain == b.chain <==> f.pending[j].chain == a.chain)
    ensures g.visited == bootstrap + f.visited && g.counter == f.counter && g.skipped == f.skipped
    ensures g.queued == Counters(f.pending) && g.unfinished == |f.pending|
  {
    ResumeIsExact(f, bootstrap, cells, g);
    var wide := Widened(f, bootstrap);
    assert SameRecord(wide.pending[i], g.pending[i]);
    forall j | 0 <= j < |f.pending| ensures g.pending[j].chain == g.pending[i].chain <==> f.pending[j].chain == f.pending[i].chain {
      assert SameRecord(wide.pending[j], g.pending[j]);
      if f.pending[i].chain.Some? {
        assert Matched(wide, g, f.pending[i].chain.value, g.pending[i].chain.value);
      }
    }
  }

  lemma NothingWidened<C>(f: Frontier<C>, more: set<string>)
    ensures Widened(f, more) == f <==> more <= f.visited
  {
    if more <= f.visited {
      assert f.visited + more == f.visited;
    }
  }

  lemma SameCounters<A(!new), B(!new)>(f: Frontier<A>, g: Frontier<B>)
    requires Iso(f, g)
    ensures Counters(f.pending) == Counters(g.pending)
    ensures forall i :: 0 <= i < |f.pending| ==> f.pending[i].counter == g.pending[i].counter
  {
    forall n | n in Counters(f.pending) ensures n in Counters(g.pending) {
      var i :| 0 <= i < |f.pending| && f.pending[i].counter == n;
      assert SameRecord(f.pending[i], g.pending[i]);
    }
    forall n | n in Counters(g.pending) ensures n in Counters(f.pending) {
      var i :| 0 <= i < |g.pending| && g.pending[i].counter == n;
      assert SameRecord(f.pending[i], g.pending[i]);
    }
  }
}
