/** Cutting an address where a configured suffix ends, when text is glued to its domain. */
module AddressCut {
  import opened Prelude

  predicate Occurs(s: string, sub: string, p: nat) {
    p + |sub| <= |s| && s[p..p + |sub|] == sub
  }

  /** The first position of sub in s from position p on. */
  function FindFrom(s: string, sub: string, p: nat): (r: Option<nat>)
    requires p <= |s|
    ensures r.Some? ==> p <= r.value && Occurs(s, sub, r.value)
    ensures forall q: nat :: p <= q && (r.None? || q < r.value) ==> !Occurs(s, sub, q)
    decreases |s| - p
  {
    if Occurs(s, sub, p) then Some(p) else if p == |s| then None else FindFrom(s, sub, p + 1)
  }

  function Find(s: string, sub: string): Option<nat> {
    FindFrom(s, sub, 0)
  }

  /** The position of the last at-sign. */
  function LastAt(s: string): (r: Option<nat>)
    ensures r.Some? ==> r.value < |s| && s[r.value] == '@'
    ensures forall q: nat :: q < |s| && (r.None? || r.value < q) ==> s[q] != '@'
  {
    if s == "" then None
    else if s[|s| - 1] == '@' then Some(|s| - 1)
    else LastAt(s[..|s| - 1])
  }

  function Local(address: string): string {
    if LastAt(address).Some? then address[..LastAt(address).value] else ""
  }

  function Domain(address: string): string {
    if LastAt(address).Some? then address[LastAt(address).value + 1..] else address
  }

  ghost predicate Contains(s: string, suffixes: seq<string>) {
    exists i, p: nat :: 0 <= i < |suffixes| && Occurs(s, suffixes[i], p)
  }

  /** end is the length of the shortest prefix of s that contains a suffix; None when s contains none. */
  ghost predicate ShortestEnd(s: string, suffixes: seq<string>, end: Option<nat>) {
    if end.None? then !Contains(s, suffixes)
    else end.value <= |s| && Contains(s[..end.value], suffixes)
         && forall m: nat :: m < end.value ==> !Contains(s[..m], suffixes)
  }

  /**
   What cutting promises: the address up to the end of the shortest domain prefix that contains a
   suffix, and the address itself when that is the whole domain or there is none.
   */
  ghost predicate CutTo(address: string, suffixes: seq<string>, r: string) {
    exists end: Option<nat> :: CutAt(address, suffixes, end, r)
  }

  ghost predicate CutAt(address: string, suffixes: seq<string>, end: Option<nat>, r: string) {
    && ShortestEnd(Domain(address), suffixes, end)
    && r == if Domain(address) == "" || end.None? || end.value == |Domain(address)| then address
            else Local(address) + "@" + Domain(address)[..end.value]
  }

  method TruncateAtKnownSuffix(address: string, suffixes: seq<string>) returns (r: string)
    ensures CutTo(address, suffixes, r)
  {
    var domain := Domain(address);
    var end := EarliestEnd(domain, suffixes);
    if domain == "" || end.None? || end.value == |domain| {
      r := address;
    } else {
      r := Local(address) + "@" + domain[..end.value];
    }
    assert CutAt(address, suffixes, end, r);
  }

  /** The least end of a first occurrence is the end of the shortest prefix. */
  method EarliestEnd(domain: string, suffixes: seq<string>) returns (end: Option<nat>)
    ensures ShortestEnd(domain, suffixes, end)
  {
    end := None;
    var i := 0;
    while i < |suffixes|
      invariant 0 <= i <= |suffixes| && ShortestEnd(domain, suffixes[..i], end)
    {
      var pos := Find(domain, suffixes[i]);
      EndNext(domain, suffixes[..i], suffixes[i], end);
      assert suffixes[..i + 1] == suffixes[..i] + [suffixes[i]];
      if pos.Some? && (end.None? || pos.value + |suffixes[i]| < end.value) {
        end := Some(pos.value + |suffixes[i]|);
      }
      i := i + 1;
    }
    assert suffixes[..i] == suffixes;
  }

  lemma ContainsMore(s: string, suffixes: seq<string>, suffix: string)
    ensures Contains(s, suffixes + [suffix]) <==> Contains(s, suffixes) || Find(s, suffix).Some?
  {
    var more := suffixes + [suffix];
    if Contains(s, suffixes) {
      var i, p: nat :| 0 <= i < |suffixes| && Occurs(s, suffixes[i], p);
      assert Occurs(s, more[i], p);
    }
    if Find(s, suffix).Some? {
      assert Occurs(s, more[|suffixes|], Find(s, suffix).value);
    }
    if Contains(s, more) {
      var i, p: nat :| 0 <= i < |more| && Occurs(s, more[i], p);
      if i < |suffixes| {
        assert Occurs(s, suffixes[i], p);
      } else {
        assert Occurs(s, suffix, p);
      }
    }
  }

  /** A prefix holds an occurrence exactly when it reaches the end of the first one. */
  lemma FoundInPrefix(s: string, sub: string, m: nat)
    requires m <= |s|
    ensures Find(s[..m], sub).Some? <==> Find(s, sub).Some? && Find(s, sub).value + |sub| <= m
  {
    forall p: nat | p + |sub| <= m ensures Occurs(s[..m], sub, p) <==> Occurs(s, sub, p) {
      assert s[..m][p..p + |sub|] == s[p..p + |sub|];
    }
    if Find(s[..m], sub).Some? {
      assert Occurs(s, sub, Find(s[..m], sub).value);
    }
    if Find(s, sub).Some? && Find(s, sub).value + |sub| <= m {
      assert Occurs(s[..m], sub, Find(s, sub).value);
    }
  }

  lemma EndNext(s: string, suffixes: seq<string>, suffix: string, end: Option<nat>)
    requires ShortestEnd(s, suffixes, end)
    ensures var pos := Find(s, suffix);
            ShortestEnd(s, suffixes + [suffix],
                        if pos.Some? && (end.None? || pos.value + |suffix| < end.value) then Some(pos.value + |suffix|) else end)
  {
    var pos, more := Find(s, suffix), suffixes + [suffix];
    ContainsMore(s, suffixes, suffix);
    forall m: nat | m <= |s|
      ensures Contains(s[..m], more) <==>
                Contains(s[..m], suffixes) || (pos.Some? && pos.value + |suffix| <= m)
    {
      ContainsMore(s[..m], suffixes, suffix);
      FoundInPrefix(s, suffix, m);
    }
    if end.None? {
      forall m: nat | m <= |s| ensures !Contains(s[..m], suffixes) {
        ContainedInPrefix(s, suffixes, m);
      }
    }
  }

  /** What a prefix contains, the whole contains. */
  lemma ContainedInPrefix(s: string, suffixes: seq<string>, m: nat)
    requires m <= |s|
    ensures Contains(s[..m], suffixes) ==> Contains(s, suffixes)
  {
    if Contains(s[..m], suffixes) {
      var i, p: nat :| 0 <= i < |suffixes| && Occurs(s[..m], suffixes[i], p);
      assert s[..m][p..p + |suffixes[i]|] == s[p..p + |suffixes[i]|];
      assert Occurs(s, suffixes[i], p);
    }
  }

  /** There is one shortest end, so the promise determines the result. */
  lemma ShortestEndIsUnique(s: string, suffixes: seq<string>, x: Option<nat>, y: Option<nat>)
    requires ShortestEnd(s, suffixes, x) && ShortestEnd(s, suffixes, y)
    ensures x == y
  {
    if x.Some? {
      ContainedInPrefix(s, suffixes, x.value);
    }
    if y.Some? {
      ContainedInPrefix(s, suffixes, y.value);
    }
  }

  lemma CutIsUnique(address: string, suffixes: seq<string>, x: string, y: string)
    requires CutTo(address, suffixes, x) && CutTo(address, suffixes, y)
    ensures x == y
  {
    var a: Option<nat> :| CutAt(address, suffixes, a, x);
    var b: Option<nat> :| CutAt(address, suffixes, b, y);
    ShortestEndIsUnique(Domain(address), suffixes, a, b);
  }

  /** The address is returned as it is exactly when no proper prefix of its domain contains a suffix. */
  lemma UncutIff(address: string, suffixes: seq<string>, r: string)
    requires CutTo(address, suffixes, r)
    ensures r == address <==> forall m: nat :: m < |Domain(address)| ==> !Contains(Domain(address)[..m], suffixes)
  {
    var domain := Domain(address);
    var end: Option<nat> :| CutAt(address, suffixes, end, r);
    if end.None? {
      forall m: nat | m < |domain| ensures !Contains(domain[..m], suffixes) {
        ContainedInPrefix(domain, suffixes, m);
      }
    } else if end.value < |domain| {
      DomainHasNoAt(address);
      assert Contains(domain[..end.value], suffixes);
      if LastAt(address).None? {
        assert r[0] == '@' && domain[0] != '@';
      } else {
        assert |r| < |address|;
      }
    }
  }

  lemma LastAtIs(s: string, p: nat)
    requires p < |s| && s[p] == '@' && forall q :: p < q < |s| ==> s[q] != '@'
    ensures LastAt(s) == Some(p)
  {
  }

  lemma LastAtOf(local: string, domain: string, s: string)
    requires '@' !in domain && s == local + "@" + domain
    ensures LastAt(s) == Some(|local|) && Local(s) == local && Domain(s) == domain
  {
    forall q | |local| < q < |s| ensures s[q] != '@' {
      assert s[q] == domain[q - |local| - 1];
    }
    LastAtIs(s, |local|);
    assert s[..|local|] == local && s[|local| + 1..] == domain;
  }

  lemma DomainHasNoAt(address: string)
    ensures '@' !in Domain(address)
  {
  }

  /** Cutting a second time changes nothing, whatever the suffixes. */
  lemma CutIsIdempotent(address: string, suffixes: seq<string>, r: string)
    requires CutTo(address, suffixes, r)
    ensures CutTo(r, suffixes, r)
  {
    var domain := Domain(address);
    var end: Option<nat> :| CutAt(address, suffixes, end, r);
    if r != address {
      var cut := domain[..end.value];
      DomainHasNoAt(address);
      LastAtOf(Local(address), cut, r);
      assert forall m: nat :: m <= |cut| ==> cut[..m] == domain[..m];
      assert cut[..|cut|] == cut;
      assert CutAt(r, suffixes, Some(|cut|), r);
    } else {
      assert CutAt(r, suffixes, end, r);
    }
  }

  /** An address keeps its local part; a text without an at-sign gains one in front exactly when it is cut. */
  lemma LocalPartUntouched(address: string, suffixes: seq<string>, r: string)
    requires CutTo(address, suffixes, r)
    ensures LastAt(address).Some? ==> LastAt(r).Some? && Local(r) == Local(address) && Domain(r) <= Domain(address)
    ensures LastAt(address).None? ==> (r == address || (Local(r) == "" && LastAt(r) == Some(0) && Domain(r) <= address))
  {
    var domain := Domain(address);
    var end: Option<nat> :| CutAt(address, suffixes, end, r);
    if r != address {
      DomainHasNoAt(address);
      LastAtOf(Local(address), domain[..end.value], r);
    }
  }

  /** A text without an at-sign that gains one. */
  lemma TextGainsAt()
    ensures LastAt("a.inb").None? && CutTo("a.inb", [".in"], "@a.in")
  {
    var text, suffixes := "a.inb", [".in"];
    assert forall q :: 0 <= q < |text| ==> text[q] != '@';
    assert Occurs(text[..4], suffixes[0], 1);
    forall m: nat | m < 4 ensures !Contains(text[..m], suffixes) {
      forall i, q: nat | 0 <= i < |suffixes| ensures !Occurs(text[..m], suffixes[i], q) {
        assert text[..m] == text[0..m] && (q + 3 <= m ==> text[..m][q..q + 3][0] == 'a');
      }
    }
    assert CutAt(text, suffixes, Some(4), "@a.in");
  }
}
