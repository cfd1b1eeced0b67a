/** From candidates found on a page to one entity per address, each phone attached once, and one lead per e-mail. */
module Binding {
  import opened Prelude
  import opened LeadStore

  /**
   What an extractor found: an address, a phone or both, where in the page, and the text around it.
   fallback is the context of a candidate that lost to this one.
   */
  datatype Candidate = Candidate(
    address: Text,
    bracketed: bool,
    rung: string,
    phone: Text,
    container: Option<int>,
    context: Option<string>,
    fallback: Option<string>)

  datatype Entity = Entity(email: Text, candidate: Candidate, phone: Text, channelTag: Text, kind: Text)

  function RungRank(rung: string): int {
    if rung == "mailto_tel" then 3
    else if rung == "microdata" then 2
    else if rung == "table_block" then 1
    else if rung == "proximity_text" then 0
    else -1
  }

  predicate Pending(c: Candidate) {
    c.bracketed && c.address.None?
  }

  predicate Names(c: Candidate, address: string) {
    c.address == Some(address) && address != ""
  }

  predicate PhoneOnly(c: Candidate) {
    !Pending(c) && !Truthy(c.address) && Truthy(c.phone)
  }

  // ---- the winner of each address ----

  /** Candidate k is the first of the highest rung for an address among the first n. */
  ghost predicate Best(cands: seq<Candidate>, n: nat, address: string, k: nat)
    requires n <= |cands|
  {
    && k < n && Names(cands[k], address)
    && forall j :: 0 <= j < n && Names(cands[j], address) ==>
         RungRank(cands[j].rung) < RungRank(cands[k].rung)
         || (RungRank(cands[j].rung) == RungRank(cands[k].rung) && k <= j)
  }

  /** Some of the first n candidates names the address and was found on the rung. */
  ghost predicate FoundOn(cands: seq<Candidate>, n: nat, address: string, rung: string)
    requires n <= |cands|
  {
    exists j :: 0 <= j < n && Names(cands[j], address) && cands[j].rung == rung
  }

  /**
   The rungs by strength: a mailto link beats microdata, which beats a table, which beats plain text, which
   beats anything else.
   */
  ghost predicate StrongestRung(cands: seq<Candidate>, n: nat, address: string, rung: string)
    requires n <= |cands|
  {
    if FoundOn(cands, n, address, "mailto_tel") then rung == "mailto_tel"
    else if FoundOn(cands, n, address, "microdata") then rung == "microdata"
    else if FoundOn(cands, n, address, "table_block") then rung == "table_block"
    else if FoundOn(cands, n, address, "proximity_text") then rung == "proximity_text"
    else true
  }

  /** The best candidate was found on the strongest rung that found the address, and is the first of it; among unknown rungs the first. */
  lemma BestIsOnStrongestRung(cands: seq<Candidate>, n: nat, address: string, k: nat)
    requires n <= |cands| && Best(cands, n, address, k)
    ensures StrongestRung(cands, n, address, cands[k].rung)
    ensures forall j :: 0 <= j < k && Names(cands[j], address) ==> cands[j].rung != cands[k].rung
    ensures (forall j :: 0 <= j < n && Names(cands[j], address) ==>
               cands[j].rung !in {"mailto_tel", "microdata", "table_block", "proximity_text"}) ==>
              forall j :: 0 <= j < k ==> !Names(cands[j], address)
  {
    forall rung | FoundOn(cands, n, address, rung) ensures RungRank(rung) <= RungRank(cands[k].rung) {
      var j :| 0 <= j < n && Names(cands[j], address) && cands[j].rung == rung;
    }
    assert Names(cands[k], address);
    assert FoundOn(cands, n, address, cands[k].rung);
  }

  /** The last phone among the candidates that led for the address in turn. */
  function CarriedPhone(cands: seq<Candidate>, n: nat, address: string): Text
    requires n <= |cands|
  {
    if n == 0 then None
    else
      var c := cands[n - 1];
      var before := CarriedPhone(cands, n - 1, address);
      if Leads(cands, n - 1, address) && Truthy(c.phone) then c.phone else before
  }

  /** Candidate i names the address and outranks every earlier one that does. */
  predicate Leads(cands: seq<Candidate>, i: nat, address: string)
    requires i < |cands|
  {
    Names(cands[i], address)
    && forall j :: 0 <= j < i && Names(cands[j], address) ==> RungRank(cands[j].rung) < RungRank(cands[i].rung)
  }

  /** The context of the candidate that leads for the address after the first n. */
  function LeaderContext(cands: seq<Candidate>, n: nat, address: string): Option<string>
    requires n <= |cands|
  {
    if n == 0 then None
    else if Leads(cands, n - 1, address) then cands[n - 1].context
    else LeaderContext(cands, n - 1, address)
  }

  /**
   The context the winner falls back on: that of the leader it displaced, or failing that the first one
   among the candidates of the address that came after it and lost.
   */
  function FallbackOf(cands: seq<Candidate>, n: nat, address: string): Option<string>
    requires n <= |cands|
  {
    if n == 0 then None
    else
      var c, before := cands[n - 1], FallbackOf(cands, n - 1, address);
      if Leads(cands, n - 1, address) then
        if LeaderContext(cands, n - 1, address).Some? then LeaderContext(cands, n - 1, address) else c.fallback
      else if Names(c, address) && before.None? then c.context
      else before
  }

  predicate SamePhone(a: Text, b: Text) {
    a == b || (!Truthy(a) && !Truthy(b))
  }

  /** w is candidate c up to its phone and the context it fell heir to. */
  predicate Dressed(c: Candidate, w: Candidate) {
    w.(phone := c.phone, fallback := c.fallback) == c
  }

  ghost predicate WinnerOf(cands: seq<Candidate>, n: nat, address: string, w: Candidate)
    requires n <= |cands|
  {
    && SamePhone(w.phone, CarriedPhone(cands, n, address))
    && w.fallback == FallbackOf(cands, n, address)
    && exists k: nat :: Best(cands, n, address, k) && Dressed(cands[k], w)
  }

  ghost predicate Mentioned(cands: seq<Candidate>, n: nat, address: string)
    requires n <= |cands|
  {
    exists i :: 0 <= i < n && Names(cands[i], address)
  }

  /** The address map after the first n candidates: the winner of every address mentioned. */
  ghost predicate Mapped(cands: seq<Candidate>, n: nat, emails: map<string, Candidate>)
    requires n <= |cands|
  {
    && (forall address :: address in emails <==> Mentioned(cands, n, address))
    && (forall address :: address in emails ==> WinnerOf(cands, n, address, emails[address]))
  }

  /** The insertion order of a map. */
  ghost predicate Lists(order: seq<string>, keys: set<string>) {
    (forall a :: a in keys <==> a in order) && forall p, q :: 0 <= p < q < |order| ==> order[p] != order[q]
  }

  function Carried(winner: Candidate, loser: Candidate): Candidate {
    if loser.context.Some? then winner.(fallback := loser.context) else winner
  }

  /** What the map holds for the address of c once c has been seen. */
  function Merged(existing: Candidate, c: Candidate): Candidate {
    if RungRank(c.rung) > RungRank(existing.rung) then
      Carried(c.(phone := Or(c.phone, existing.phone)), existing)
    else if existing.fallback.None? then
      Carried(existing, c)
    else
      existing
  }

  lemma FirstWins(cands: seq<Candidate>, n: nat, address: string)
    requires n < |cands| && Names(cands[n], address) && !Mentioned(cands, n, address)
    ensures WinnerOf(cands, n + 1, address, cands[n])
  {
    NothingYet(cands, n, address);
    assert Best(cands, n + 1, address, n) && Dressed(cands[n], cands[n]);
  }

  lemma {:induction false} NothingYet(cands: seq<Candidate>, n: nat, address: string)
    requires n <= |cands| && !Mentioned(cands, n, address)
    ensures CarriedPhone(cands, n, address) == None && LeaderContext(cands, n, address) == None && FallbackOf(cands, n, address) == None
  {
    if n > 0 {
      assert !Names(cands[n - 1], address);
      NothingYet(cands, n - 1, address);
    }
  }

  lemma {:induction false} BestLeads(cands: seq<Candidate>, n: nat, address: string, k: nat)
    requires n <= |cands| && Best(cands, n, address, k)
    ensures LeaderContext(cands, n, address) == cands[k].context
  {
    if k == n - 1 {
      assert Leads(cands, k, address);
    } else {
      assert !Leads(cands, n - 1, address) by {
        assert Names(cands[k], address);
      }
      BestLeads(cands, n - 1, address, k);
    }
  }

  /** No context found after the winner is lost while it has none to fall back on. */
  lemma {:induction false} FallbackIsKept(cands: seq<Candidate>, n: nat, address: string, k: nat, j: nat)
    requires n <= |cands| && Best(cands, n, address, k) && k < j < n && Names(cands[j], address) && cands[j].context.Some?
    ensures FallbackOf(cands, n, address).Some?
  {
    assert !Leads(cands, n - 1, address) by {
      assert Names(cands[k], address);
    }
    if j < n - 1 {
      FallbackIsKept(cands, n - 1, address, k, j);
    }
  }

  lemma MergedWins(cands: seq<Candidate>, n: nat, address: string, existing: Candidate)
    requires n < |cands| && Names(cands[n], address) && WinnerOf(cands, n, address, existing)
    ensures WinnerOf(cands, n + 1, address, Merged(existing, cands[n]))
  {
    var k: nat :| Best(cands, n, address, k) && Dressed(cands[k], existing);
    assert existing.rung == cands[k].rung;
    BestLeads(cands, n, address, k);
    if RungRank(cands[n].rung) > RungRank(existing.rung) {
      assert Best(cands, n + 1, address, n) && Dressed(cands[n], Merged(existing, cands[n]));
      assert Leads(cands, n, address);
    } else {
      assert Best(cands, n + 1, address, k) && Dressed(cands[k], Merged(existing, cands[n]));
      assert !Leads(cands, n, address);
    }
  }

  lemma OthersStay(cands: seq<Candidate>, n: nat, address: string, w: Candidate)
    requires n < |cands| && !Names(cands[n], address) && WinnerOf(cands, n, address, w)
    ensures WinnerOf(cands, n + 1, address, w)
  {
    var k: nat :| Best(cands, n, address, k) && Dressed(cands[k], w);
    assert Best(cands, n + 1, address, k);
    assert !Leads(cands, n, address);
  }

  lemma MentionedNext(cands: seq<Candidate>, n: nat, address: string)
    requires n < |cands|
    ensures Mentioned(cands, n + 1, address) <==> Mentioned(cands, n, address) || Names(cands[n], address)
  {
  }

  lemma ListsNext(order: seq<string>, keys: set<string>, address: string)
    requires Lists(order, keys) && address !in keys
    ensures Lists(order + [address], keys + {address})
  {
    assert (order + [address])[|order|] == address;
    assert forall p :: 0 <= p < |order| ==> order[p] in keys;
  }

  lemma ListsFirst(order: seq<string>, emails: map<string, Candidate>, address: string, c: Candidate)
    requires Lists(order, emails.Keys) && address !in emails
    ensures Lists(order + [address], emails[address := c].Keys)
  {
    ListsNext(order, emails.Keys, address);
    assert emails[address := c].Keys == emails.Keys + {address};
  }

  lemma ListsAgain(order: seq<string>, emails: map<string, Candidate>, address: string, c: Candidate)
    requires Lists(order, emails.Keys) && address in emails
    ensures Lists(order, emails[address := c].Keys)
  {
    assert emails[address := c].Keys == emails.Keys;
  }

  /** A candidate without an address changes nothing. */
  lemma MappedSkip(cands: seq<Candidate>, n: nat, emails: map<string, Candidate>)
    requires n < |cands| && Mapped(cands, n, emails) && !Truthy(cands[n].address)
    ensures Mapped(cands, n + 1, emails)
  {
    forall address ensures Mentioned(cands, n + 1, address) <==> Mentioned(cands, n, address) {
      MentionedNext(cands, n, address);
    }
    forall address | address in emails ensures WinnerOf(cands, n + 1, address, emails[address]) {
      OthersStay(cands, n, address, emails[address]);
    }
  }

  lemma NamedWins(cands: seq<Candidate>, n: nat, emails: map<string, Candidate>, key: string)
    requires n < |cands| && Mapped(cands, n, emails) && Names(cands[n], key)
    ensures WinnerOf(cands, n + 1, key, if key in emails then Merged(emails[key], cands[n]) else cands[n])
  {
    if key in emails {
      MergedWins(cands, n, key, emails[key]);
    } else {
      FirstWins(cands, n, key);
    }
  }

  lemma OthersMapped(cands: seq<Candidate>, n: nat, emails: map<string, Candidate>, key: string, address: string)
    requires n < |cands| && Mapped(cands, n, emails) && Names(cands[n], key) && address in emails && address != key
    ensures WinnerOf(cands, n + 1, address, emails[address])
  {
    OthersStay(cands, n, address, emails[address]);
  }

  /** A candidate with an address is merged into its winner, or is the winner so far. */
  lemma MappedNext(cands: seq<Candidate>, n: nat, emails: map<string, Candidate>, key: string)
    requires n < |cands| && Mapped(cands, n, emails) && Names(cands[n], key)
    ensures Mapped(cands, n + 1, emails[key := if key in emails then Merged(emails[key], cands[n]) else cands[n]])
  {
    var winner := if key in emails then Merged(emails[key], cands[n]) else cands[n];
    var after := emails[key := winner];
    NamedWins(cands, n, emails, key);
    forall address ensures address in after <==> Mentioned(cands, n + 1, address) {
      MentionedNext(cands, n, address);
    }
    forall address | address in after ensures WinnerOf(cands, n + 1, address, after[address]) {
      if address != key {
        OthersMapped(cands, n, emails, key, address);
      }
    }
  }

  function Where(cands: seq<Candidate>, keep: Candidate -> bool): seq<Candidate> {
    if cands == [] then []
    else Where(cands[..|cands| - 1], keep) + if keep(cands[|cands| - 1]) then [cands[|cands| - 1]] else []
  }

  lemma WhereNext(cands: seq<Candidate>, i: nat, keep: Candidate -> bool)
    requires i < |cands|
    ensures Where(cands[..i + 1], keep) == if keep(cands[i]) then Where(cands[..i], keep) + [cands[i]] else Where(cands[..i], keep)
  {
    assert cands[..i + 1][..i] == cands[..i];
  }

  lemma {:induction false} WhereTells(cands: seq<Candidate>, keep: Candidate -> bool, c: Candidate)
    ensures c in Where(cands, keep) <==> c in cands && keep(c)
  {
    if cands != [] {
      WhereTells(cands[..|cands| - 1], keep, c);
      assert cands == cands[..|cands| - 1] + [cands[|cands| - 1]];
    }
  }

  lemma SortedOut(cands: seq<Candidate>, pending: seq<Candidate>, phones: seq<Candidate>)
    requires pending == Where(cands, Pending) && phones == Where(cands, PhoneOnly)
    ensures forall c :: c in pending <==> c in cands && c.bracketed && c.address == None
    ensures forall c :: c in phones <==>
              && c in cands && !(c.bracketed && c.address == None) && c.address in {None, Some("")} && c.phone !in {None, Some("")}
  {
    forall c
      ensures c in pending <==> c in cands && Pending(c)
      ensures c in phones <==> c in cands && PhoneOnly(c)
    {
      WhereTells(cands, Pending, c);
      WhereTells(cands, PhoneOnly, c);
    }
  }

  /** Sorts candidates into the winner of each address, the bracketed ones and the bare phones. */
  method GroupCandidates(cands: seq<Candidate>)
    returns (emails: map<string, Candidate>, order: seq<string>, pending: seq<Candidate>, phones: seq<Candidate>)
    ensures Mapped(cands, |cands|, emails) && Lists(order, emails.Keys)
    ensures pending == Where(cands, Pending) && phones == Where(cands, PhoneOnly)
    ensures forall c :: c in pending <==> c in cands && c.bracketed && c.address == None
    ensures forall c :: c in phones <==>
              && c in cands && !(c.bracketed && c.address == None) && c.address in {None, Some("")} && c.phone !in {None, Some("")}
  {
    emails, order, pending, phones := map[], [], [], [];
    var i := 0;
    while i < |cands|
      invariant 0 <= i <= |cands| && Mapped(cands, i, emails) && Lists(order, emails.Keys)
      invariant pending == Where(cands[..i], Pending) && phones == Where(cands[..i], PhoneOnly)
    {
      var c := cands[i];
      WhereNext(cands, i, Pending);
      WhereNext(cands, i, PhoneOnly);
      if c.bracketed && c.address.None? {
        MappedSkip(cands, i, emails);
        pending := pending + [c];
      } else if Truthy(c.address) {
        var address := c.address.value;
        MappedNext(cands, i, emails, address);
        if address !in emails {
          ListsFirst(order, emails, address, c);
          order := order + [address];
          emails := emails[address := c];
        } else {
          ListsAgain(order, emails, address, Merged(emails[address], c));
          emails := emails[address := Merged(emails[address], c)];
        }
      } else {
        MappedSkip(cands, i, emails);
        if Truthy(c.phone) {
          phones := phones + [c];
        }
      }
      i := i + 1;
    }
    assert cands[..i] == cands;
    SortedOut(cands, pending, phones);
  }

  // ---- phones ----

  predicate Shares(phone: Candidate, e: Entity) {
    phone.container.Some? && e.candidate.container == phone.container
  }

  /** The first entity from i on that has no phone and, when near is asked for, shares the container. */
  function FirstFree(es: seq<Entity>, phone: Candidate, near: bool, i: nat): (r: Option<nat>)
    requires i <= |es|
    ensures r.Some? ==> i <= r.value < |es| && !Truthy(es[r.value].phone) && (near ==> Shares(phone, es[r.value]))
    ensures forall j :: i <= j < |es| && (r.None? || j < r.value) ==> Truthy(es[j].phone) || (near && !Shares(phone, es[j]))
    decreases |es| - i
  {
    if i == |es| then None
    else if !Truthy(es[i].phone) && (near ==> Shares(phone, es[i])) then Some(i)
    else FirstFree(es, phone, near, i + 1)
  }

  /** The entity a phone goes to: the first free one next to it, else the first free one. */
  function Owner(es: seq<Entity>, phone: Candidate): Option<nat> {
    if FirstFree(es, phone, true, 0).Some? then FirstFree(es, phone, true, 0) else FirstFree(es, phone, false, 0)
  }

  function Attached(es: seq<Entity>, phone: Candidate): (r: seq<Entity>)
    ensures |r| == |es|
  {
    var owner := Owner(es, phone);
    if owner.Some? then es[owner.value := es[owner.value].(phone := phone.phone)] else es
  }

  function AttachedAll(es: seq<Entity>, phones: seq<Candidate>): (r: seq<Entity>)
    ensures |r| == |es|
  {
    if phones == [] then es else Attached(AttachedAll(es, phones[..|phones| - 1]), phones[|phones| - 1])
  }

  /** The entity each phone went to. */
  function Owners(es: seq<Entity>, phones: seq<Candidate>): (r: seq<Option<nat>>)
    ensures |r| == |phones|
  {
    if phones == [] then []
    else
      var init := phones[..|phones| - 1];
      Owners(es, init) + [Owner(AttachedAll(es, init), phones[|phones| - 1])]
  }

  function Free(es: seq<Entity>): set<int> {
    set i | 0 <= i < |es| && !Truthy(es[i].phone)
  }

  /** A phone finds an owner exactly when someone is without a phone, and then takes that one place. */
  lemma AttachedTakesOne(es: seq<Entity>, phone: Candidate)
    requires Truthy(phone.phone)
    ensures var owner := Owner(es, phone);
            if owner.Some? then owner.value in Free(es) && Free(Attached(es, phone)) == Free(es) - {owner.value}
            else Free(es) == {} && Attached(es, phone) == es
  {
    if Owner(es, phone).None? {
      assert forall j :: 0 <= j < |es| ==> Truthy(es[j].phone);
    }
  }

  /** Entity i has no phone yet. */
  predicate Phoneless(es: seq<Entity>, i: nat)
    requires i < |es|
  {
    es[i].phone.None? || es[i].phone.value == ""
  }

  predicate Beside(es: seq<Entity>, phone: Candidate, i: nat)
    requires i < |es|
  {
    phone.container.Some? && es[i].candidate.container == phone.container
  }

  /** A phone goes to the first phoneless entity beside it; if there is none, to the first phoneless one; else nowhere. */
  lemma OwnerIsNearest(es: seq<Entity>, phone: Candidate)
    ensures var after := Attached(es, phone);
            && (forall i :: 0 <= i < |es| && Phoneless(es, i) && Beside(es, phone, i)
                            && (forall j :: 0 <= j < i ==> !(Phoneless(es, j) && Beside(es, phone, j))) ==>
                  after == es[i := es[i].(phone := phone.phone)])
            && (forall i :: 0 <= i < |es| && Phoneless(es, i) && (forall j :: 0 <= j < i ==> !Phoneless(es, j))
                            && (forall j :: 0 <= j < |es| ==> !(Phoneless(es, j) && Beside(es, phone, j))) ==>
                  after == es[i := es[i].(phone := phone.phone)])
            && ((forall i :: 0 <= i < |es| ==> !Phoneless(es, i)) ==> after == es)
  {
    var near, any := FirstFree(es, phone, true, 0), FirstFree(es, phone, false, 0);
    assert near.Some? ==> Phoneless(es, near.value) && Beside(es, phone, near.value);
    assert any.Some? ==> Phoneless(es, any.value);
  }

  predicate AllPhones(phones: seq<Candidate>) {
    forall i :: 0 <= i < |phones| ==> Truthy(phones[i].phone)
  }

  /** Exactly min(phones, entities without one) places are filled. */
  lemma {:induction false} AttachesAsManyAsPossible(es: seq<Entity>, phones: seq<Candidate>)
    requires AllPhones(phones)
    ensures |Free(AttachedAll(es, phones))| == if |phones| <= |Free(es)| then |Free(es)| - |phones| else 0
  {
    if phones != [] {
      var init := phones[..|phones| - 1];
      AttachesAsManyAsPossible(es, init);
      AttachedTakesOne(AttachedAll(es, init), phones[|phones| - 1]);
    }
  }

  /** Owner o of phone p had no phone before and has phone p afterwards. */
  predicate Owns(before: seq<Entity>, after: seq<Entity>, owner: Option<nat>, phone: Text) {
    owner.Some? ==> owner.value < |before| == |after| && !Truthy(before[owner.value].phone) && after[owner.value].phone == phone
  }

  ghost predicate OwnedOnce(owners: seq<Option<nat>>) {
    forall p, q :: 0 <= p < q < |owners| && owners[p].Some? ==> owners[p] != owners[q]
  }

  /** Where the phones went, and that they went nowhere else. */
  ghost predicate Placed(es: seq<Entity>, after: seq<Entity>, owners: seq<Option<nat>>, phones: seq<Candidate>) {
    && |after| == |es| && |owners| == |phones|
    && (forall p :: 0 <= p < |phones| ==> Owns(es, after, owners[p], phones[p].phone))
    && (forall i :: 0 <= i < |es| ==> after[i].(phone := es[i].phone) == es[i])
    && (forall i :: 0 <= i < |es| && Some(i) !in owners ==> after[i] == es[i])
  }

  /** One more phone goes to an entity that has none so far. */
  lemma PlacedNext(es: seq<Entity>, mid: seq<Entity>, owners: seq<Option<nat>>, init: seq<Candidate>, last: Candidate, o: nat)
    requires Placed(es, mid, owners, init) && AllPhones(init)
    requires o < |es| && !Truthy(mid[o].phone)
    ensures Placed(es, mid[o := mid[o].(phone := last.phone)], owners + [Some(o)], init + [last])
  {
    var after, all, phones := mid[o := mid[o].(phone := last.phone)], owners + [Some(o)], init + [last];
    forall q | 0 <= q < |owners| ensures owners[q] != Some(o) {
      assert Owns(es, mid, owners[q], init[q].phone) && Truthy(init[q].phone);
    }
    assert mid[o] == es[o];
    forall p | 0 <= p < |phones| ensures Owns(es, after, all[p], phones[p].phone) {
      if p < |init| {
        assert Owns(es, mid, owners[p], init[p].phone) && all[p] == owners[p] && phones[p] == init[p];
      }
    }
    forall i | 0 <= i < |es| && Some(i) !in all ensures after[i] == es[i] {
      assert all[|owners|] == Some(o);
      forall q | 0 <= q < |owners| ensures owners[q] != Some(i) {
        assert all[q] == owners[q];
      }
    }
  }

  lemma PlacedNowhere(es: seq<Entity>, mid: seq<Entity>, owners: seq<Option<nat>>, init: seq<Candidate>, last: Candidate)
    requires Placed(es, mid, owners, init)
    ensures Placed(es, mid, owners + [None], init + [last])
  {
    var all := owners + [None];
    forall i | 0 <= i < |es| && Some(i) !in all ensures mid[i] == es[i] {
      forall q | 0 <= q < |owners| ensures owners[q] != Some(i) {
        assert all[q] == owners[q];
      }
    }
  }

  /** A phone that was there is never overwritten, and nothing but the phones of the owners changes. */
  lemma {:induction false} PhonesGoWhereNoneWas(es: seq<Entity>, phones: seq<Candidate>)
    requires AllPhones(phones)
    ensures Placed(es, AttachedAll(es, phones), Owners(es, phones), phones)
  {
    if phones != [] {
      var init, last := phones[..|phones| - 1], phones[|phones| - 1];
      PhonesGoWhereNoneWas(es, init);
      var mid, owners := AttachedAll(es, init), Owners(es, init);
      var owner := Owner(mid, last);
      assert phones == init + [last];
      if owner.Some? {
        PlacedNext(es, mid, owners, init, last, owner.value);
      } else {
        PlacedNowhere(es, mid, owners, init, last);
      }
    }
  }

  /** Each phone goes to at most one entity and no entity gets two. */
  lemma {:induction false} NoEntityGetsTwo(es: seq<Entity>, phones: seq<Candidate>)
    requires AllPhones(phones)
    ensures OwnedOnce(Owners(es, phones))
  {
    if phones != [] {
      var init, last := phones[..|phones| - 1], phones[|phones| - 1];
      NoEntityGetsTwo(es, init);
      PhonesGoWhereNoneWas(es, init);
      var mid, owners := AttachedAll(es, init), Owners(es, init);
      var owner := Owner(mid, last);
      assert forall p :: 0 <= p < |init| ==> Owners(es, phones)[p] == owners[p];
      forall p | 0 <= p < |init| && owners[p].Some? ensures owners[p] != owner {
        assert Owns(es, mid, owners[p], init[p].phone);
        if owner.Some? {
          AttachedTakesOne(mid, last);
        }
      }
    }
  }

  /** Attaches bare phones to entities in place of nothing. */
  method AttachPhones(es: seq<Entity>, phones: seq<Candidate>) returns (entities: seq<Entity>)
    ensures entities == AttachedAll(es, phones)
  {
    entities := es;
    var p := 0;
    while p < |phones|
      invariant 0 <= p <= |phones| && entities == AttachedAll(es, phones[..p])
    {
      assert phones[..p + 1][..p] == phones[..p];
      var best: Option<nat> := None;
      if phones[p].container.Some? {
        best := FindFree(entities, phones[p], true);
      }
      assert best == FirstFree(entities, phones[p], true, 0);
      if best.None? {
        best := FindFree(entities, phones[p], false);
      }
      if best.Some? {
        entities := entities[best.value := entities[best.value].(phone := phones[p].phone)];
      }
      p := p + 1;
    }
    assert phones[..p] == phones;
  }

  method FindFree(es: seq<Entity>, phone: Candidate, near: bool) returns (best: Option<nat>)
    ensures best == FirstFree(es, phone, near, 0)
  {
    var i := 0;
    while i < |es|
      invariant 0 <= i <= |es| && FirstFree(es, phone, near, 0) == FirstFree(es, phone, near, i)
    {
      if !Truthy(es[i].phone) && (near ==> Shares(phone, es[i])) {
        return Some(i);
      }
      i := i + 1;
    }
    return None;
  }

  // ---- binding ----

  /** The text before the first at-sign, and the text between the first two. */
  function LocalPart(address: string): string {
    if address == "" || address[0] == '@' then "" else [address[0]] + LocalPart(address[1..])
  }

  function AfterAt(address: string): string {
    if address == "" then "" else if address[0] == '@' then LocalPart(address[1..]) else AfterAt(address[1..])
  }

  predicate EndsWithAny(s: string, suffixes: seq<string>) {
    exists i :: 0 <= i < |suffixes| && |suffixes[i]| <= |s| && s[|s| - |suffixes[i]|..] == suffixes[i]
  }

  lemma {:induction false} LocalPartIs(local: string, rest: string)
    requires '@' !in local
    ensures LocalPart(local + "@" + rest) == local && AfterAt(local + "@" + rest) == LocalPart(rest)
    ensures LocalPart(local) == local && AfterAt(local) == ""
  {
    var address := local + "@" + rest;
    if local == "" {
      assert address[1..] == rest;
    } else {
      LocalPartIs(local[1..], rest);
      assert address[1..] == local[1..] + "@" + rest && address[0] == local[0];
    }
  }

  /**
   An address at a role is an organisation's; otherwise it is a person's, of an office when its domain ends
   with a configured suffix and external when not. Letter case does not matter.
   */
  lemma TagsOf(local: string, domain: string, c: Candidate, roles: set<string>, suffixes: seq<string>)
    requires '@' !in local && '@' !in domain
    ensures var e := EntityFor(local + "@" + domain, c, roles, suffixes);
            && e.email == Some(local + "@" + domain) && e.candidate == c && e.phone == c.phone
            && (e.kind == Some("org") <==> Lower(local) in roles) && (e.kind == Some("person") <==> Lower(local) !in roles)
            && (e.channelTag == Some("role") <==> Lower(local) in roles)
            && (e.channelTag == Some("office") <==>
                  Lower(local) !in roles
                  && exists i, k: nat :: 0 <= i < |suffixes| && k <= |domain| && Lower(domain)[k..] == suffixes[i])
            && (e.channelTag == Some("personal-external") <==> e.kind == Some("person") && e.channelTag != Some("office"))
  {
    LocalPartIs(local, domain);
    LocalPartIs(domain, "");
    var low := Lower(domain);
    if EndsWithAny(low, suffixes) {
      var i :| 0 <= i < |suffixes| && |suffixes[i]| <= |low| && low[|low| - |suffixes[i]|..] == suffixes[i];
      var k: nat := |low| - |suffixes[i]|;
      assert low[k..] == suffixes[i];
    }
    if i, k: nat :| 0 <= i < |suffixes| && k <= |domain| && low[k..] == suffixes[i] {
      assert |suffixes[i]| == |low| - k;
    }
  }

  function EntityFor(address: string, c: Candidate, roles: set<string>, suffixes: seq<string>): Entity {
    var role, office := Lower(LocalPart(address)) in roles, EndsWithAny(Lower(AfterAt(address)), suffixes);
    Entity(Some(address), c, c.phone,
           Some(if role then "role" else if office then "office" else "personal-external"),
           Some(if role then "org" else "person"))
  }

  /** Entity e stems from the winner of its address; only its phone may have been filled since. */
  ghost predicate Stems(cands: seq<Candidate>, e: Entity, roles: set<string>, suffixes: seq<string>) {
    exists address, w ::
      e.email == Some(address) && WinnerOf(cands, |cands|, address, w)
      && e.(phone := w.phone) == EntityFor(address, w, roles, suffixes)
      && (Truthy(w.phone) ==> e.phone == w.phone)
  }

  /** An entity carries the rung, container and context of the first candidate of its address on the strongest rung. */
  lemma StemsFromStrongestRung(cands: seq<Candidate>, e: Entity, roles: set<string>, suffixes: seq<string>, address: string)
    requires Stems(cands, e, roles, suffixes) && e.email == Some(address)
    ensures StrongestRung(cands, |cands|, address, e.candidate.rung)
    ensures exists k: nat :: k < |cands| && Names(cands[k], address) && Dressed(cands[k], e.candidate)
                             && forall j :: 0 <= j < k && Names(cands[j], address) ==> cands[j].rung != e.candidate.rung
  {
    var w :| WinnerOf(cands, |cands|, address, w) && e.(phone := w.phone) == EntityFor(address, w, roles, suffixes);
    var k: nat :| Best(cands, |cands|, address, k) && Dressed(cands[k], w);
    BestIsOnStrongestRung(cands, |cands|, address, k);
    assert e.candidate == w;
  }

  function Emails(es: seq<Entity>): set<Text> {
    set i | 0 <= i < |es| :: es[i].email
  }

  /** One entity per mentioned address, each from the winner of that address. */
  ghost predicate Winners(cands: seq<Candidate>, es: seq<Entity>, roles: set<string>, suffixes: seq<string>) {
    && (forall i :: 0 <= i < |es| ==> Stems(cands, es[i], roles, suffixes))
    && (forall i, j :: 0 <= i < j < |es| ==> es[i].email != es[j].email)
    && (forall address :: Mentioned(cands, |cands|, address) ==> Some(address) in Emails(es))
  }

  function AsEntities(pending: seq<Candidate>): seq<Entity> {
    seq(|pending|, i requires 0 <= i < |pending| => Entity(None, pending[i], pending[i].phone, None, None))
  }

  /** One entity per address of the map, in insertion order. */
  method EntitiesFor(emails: map<string, Candidate>, order: seq<string>, roles: set<string>, suffixes: seq<string>)
    returns (es: seq<Entity>)
    requires Lists(order, emails.Keys)
    ensures |es| == |order|
    ensures forall i :: 0 <= i < |order| ==>
              order[i] in emails && es[i] == EntityFor(order[i], emails[order[i]], roles, suffixes)
  {
    es := [];
    var i := 0;
    while i < |order|
      invariant 0 <= i <= |order| && |es| == i
      invariant forall j :: 0 <= j < i ==> order[j] in emails && es[j] == EntityFor(order[j], emails[order[j]], roles, suffixes)
    {
      assert order[i] in emails.Keys;
      es := es + [EntityFor(order[i], emails[order[i]], roles, suffixes)];
      i := i + 1;
    }
  }

  /**
   What binding gives: the winners with the bare phones attached, then the bracketed candidates;
   unphoned are the winners before any phone was attached.
   */
  ghost predicate BoundFrom(cands: seq<Candidate>, unphoned: seq<Entity>, entities: seq<Entity>, roles: set<string>, suffixes: seq<string>) {
    && Winners(cands, unphoned, roles, suffixes)
    && |unphoned| <= |entities| && entities[..|unphoned|] == AttachedAll(unphoned, Where(cands, PhoneOnly))
    && Winners(cands, entities[..|unphoned|], roles, suffixes)
    && entities[|unphoned|..] == AsEntities(Where(cands, Pending))
  }

  /** Groups the candidates, attaches the bare phones and passes the bracketed ones through. */
  method BindChannels(cands: seq<Candidate>, roles: set<string>, suffixes: seq<string>) returns (entities: seq<Entity>)
    ensures exists unphoned :: BoundFrom(cands, unphoned, entities, roles, suffixes)
    ensures forall i, address :: 0 <= i < |entities| && entities[i].email == Some(address) ==>
              StrongestRung(cands, |cands|, address, entities[i].candidate.rung)
  {
    var emails, order, pending, phones := GroupCandidates(cands);
    var es := EntitiesFor(emails, order, roles, suffixes);
    WinnersListed(cands, emails, order, es, roles, suffixes);
    var attached := AttachPhones(es, phones);
    OnlyPhones(cands);
    WinnersAttached(cands, es, phones, roles, suffixes);
    entities := attached + AsEntities(pending);
    assert entities[..|es|] == attached;
    forall i, address | 0 <= i < |entities| && entities[i].email == Some(address)
      ensures StrongestRung(cands, |cands|, address, entities[i].candidate.rung)
    {
      if i < |es| {
        assert entities[i] == attached[i];
        StemsFromStrongestRung(cands, attached[i], roles, suffixes, address);
      }
    }
    assert BoundFrom(cands, es, entities, roles, suffixes);
  }

  lemma WinnersListed(cands: seq<Candidate>, emails: map<string, Candidate>, order: seq<string>, es: seq<Entity>,
                      roles: set<string>, suffixes: seq<string>)
    requires Mapped(cands, |cands|, emails) && Lists(order, emails.Keys) && |es| == |order|
    requires forall i :: 0 <= i < |order| ==>
               order[i] in emails && es[i] == EntityFor(order[i], emails[order[i]], roles, suffixes)
    ensures Winners(cands, es, roles, suffixes)
  {
    forall i | 0 <= i < |es| ensures Stems(cands, es[i], roles, suffixes) {
      StemsFrom(cands, order[i], emails[order[i]], es[i], roles, suffixes);
    }
    forall address | Mentioned(cands, |cands|, address) ensures Some(address) in Emails(es) {
      assert address in emails.Keys && address in order;
      var k :| 0 <= k < |order| && order[k] == address;
      assert es[k].email == Some(address);
    }
  }

  lemma StemsFrom(cands: seq<Candidate>, address: string, w: Candidate, e: Entity, roles: set<string>, suffixes: seq<string>)
    requires WinnerOf(cands, |cands|, address, w) && e.email == Some(address)
    requires e.(phone := w.phone) == EntityFor(address, w, roles, suffixes) && (Truthy(w.phone) ==> e.phone == w.phone)
    ensures Stems(cands, e, roles, suffixes)
  {
  }

  lemma WinnersAttached(cands: seq<Candidate>, es: seq<Entity>, phones: seq<Candidate>, roles: set<string>, suffixes: seq<string>)
    requires Winners(cands, es, roles, suffixes) && AllPhones(phones)
    ensures Winners(cands, AttachedAll(es, phones), roles, suffixes)
  {
    var after, owners := AttachedAll(es, phones), Owners(es, phones);
    PhonesGoWhereNoneWas(es, phones);
    forall i | 0 <= i < |es| ensures after[i].(phone := es[i].phone) == es[i] && (Truthy(es[i].phone) ==> after[i] == es[i]) {
      if Some(i) in owners {
        var p :| 0 <= p < |owners| && owners[p] == Some(i);
        assert Owns(es, after, owners[p], phones[p].phone);
      }
    }
    forall i | 0 <= i < |es| ensures Stems(cands, after[i], roles, suffixes) {
      assert Stems(cands, es[i], roles, suffixes);
      var address, w :| es[i].email == Some(address) && WinnerOf(cands, |cands|, address, w)
        && es[i].(phone := w.phone) == EntityFor(address, w, roles, suffixes) && (Truthy(w.phone) ==> es[i].phone == w.phone);
      StemsFrom(cands, address, w, after[i], roles, suffixes);
    }
    assert forall i :: 0 <= i < |es| ==> after[i].email == es[i].email;
    assert Emails(after) == Emails(es);
  }

  lemma {:induction false} OnlyPhones(cands: seq<Candidate>)
    ensures AllPhones(Where(cands, PhoneOnly))
  {
    if cands != [] {
      OnlyPhones(cands[..|cands| - 1]);
    }
  }

  // ---- one lead per e-mail ----

  /** Entity i is the first with its e-mail. */
  predicate FirstWithEmail(es: seq<Entity>, i: nat)
    requires i < |es|
  {
    Truthy(es[i].email) && forall j :: 0 <= j < i ==> es[j].email != es[i].email
  }

  function Firsts(es: seq<Entity>, n: nat): seq<Entity>
    requires n <= |es|
  {
    if n == 0 then [] else Firsts(es, n - 1) + if FirstWithEmail(es, n - 1) then [es[n - 1]] else []
  }

  method FlattenEmit(es: seq<Entity>) returns (leads: seq<Entity>)
    ensures leads == Firsts(es, |es|)
  {
    leads := [];
    var seen: set<string> := {};
    var i := 0;
    while i < |es|
      invariant 0 <= i <= |es| && leads == Firsts(es, i)
      invariant seen == set j | 0 <= j < i && Truthy(es[j].email) :: es[j].email.value
    {
      var email := es[i].email;
      if Truthy(email) && email.value !in seen {
        assert forall j :: 0 <= j < i && Truthy(es[j].email) ==> es[j].email.value in seen;
        seen := seen + {email.value};
        leads := leads + [es[i]];
      }
      i := i + 1;
    }
  }

  lemma {:induction false} EmittedAreFirsts(es: seq<Entity>, n: nat, p: nat)
    requires n <= |es| && p < |Firsts(es, n)|
    ensures exists i :: 0 <= i < n && FirstWithEmail(es, i) && Firsts(es, n)[p] == es[i]
  {
    if p < |Firsts(es, n - 1)| {
      EmittedAreFirsts(es, n - 1, p);
      var i :| 0 <= i < n - 1 && FirstWithEmail(es, i) && Firsts(es, n - 1)[p] == es[i];
      assert Firsts(es, n)[p] == es[i];
    }
  }

  lemma {:induction false} FirstsAreEmitted(es: seq<Entity>, n: nat, i: nat)
    requires n <= |es| && i < n && Truthy(es[i].email)
    ensures es[i].email in Emails(Firsts(es, n))
  {
    if i < n - 1 {
      FirstsAreEmitted(es, n - 1, i);
      EmailsGrow(es, n);
    } else if FirstWithEmail(es, i) {
      assert Firsts(es, n)[|Firsts(es, n - 1)|] == es[i];
    } else {
      var j: nat :| j < i && es[j].email == es[i].email;
      FirstsAreEmitted(es, n - 1, j);
      EmailsGrow(es, n);
    }
  }

  lemma EmailsGrow(es: seq<Entity>, n: nat)
    requires 0 < n <= |es|
    ensures Emails(Firsts(es, n - 1)) <= Emails(Firsts(es, n))
  {
    var before, after := Firsts(es, n - 1), Firsts(es, n);
    forall x | x in Emails(before) ensures x in Emails(after) {
      var p :| 0 <= p < |before| && before[p].email == x;
      assert after[p] == before[p];
    }
  }

  /** The e-mails of the first n entities that have one. */
  function Given(es: seq<Entity>, n: nat): set<Text>
    requires n <= |es|
  {
    set i | 0 <= i < n && Truthy(es[i].email) :: es[i].email
  }

  lemma EmittedWasGiven(es: seq<Entity>, n: nat, p: nat)
    requires n <= |es| && p < |Firsts(es, n)|
    ensures Firsts(es, n)[p].email in Given(es, n)
  {
    EmittedAreFirsts(es, n, p);
  }

  /** Each given e-mail is emitted exactly once. */
  lemma {:induction false} EachEmailOnce(es: seq<Entity>, n: nat)
    requires n <= |es|
    ensures forall p, q :: 0 <= p < q < |Firsts(es, n)| ==> Firsts(es, n)[p].email != Firsts(es, n)[q].email
    ensures Emails(Firsts(es, n)) == Given(es, n)
  {
    forall p | 0 <= p < |Firsts(es, n)| ensures Firsts(es, n)[p].email in Given(es, n) {
      EmittedWasGiven(es, n, p);
    }
    forall x | x in Given(es, n) ensures x in Emails(Firsts(es, n)) {
      var i :| 0 <= i < n && Truthy(es[i].email) && es[i].email == x;
      FirstsAreEmitted(es, n, i);
    }
    if n > 0 {
      EachEmailOnce(es, n - 1);
      var before, last := Firsts(es, n - 1), es[n - 1];
      if FirstWithEmail(es, n - 1) {
        assert last.email !in Given(es, n - 1);
        forall p | 0 <= p < |before| ensures before[p].email != last.email {
          EmittedWasGiven(es, n - 1, p);
        }
      }
    }
  }

  lemma {:induction false} DistinctAreFirsts(es: seq<Entity>, n: nat)
    requires n <= |es| && forall i :: 0 <= i < n ==> Truthy(es[i].email)
    requires forall i, j :: 0 <= i < j < n ==> es[i].email != es[j].email
    ensures Firsts(es, n) == es[..n]
  {
    if n > 0 {
      DistinctAreFirsts(es, n - 1);
      assert es[..n] == es[..n - 1] + [es[n - 1]];
    }
  }

  /** After binding, flattening emits every entity that has its address. */
  lemma BoundAreAllEmitted(cands: seq<Candidate>, es: seq<Entity>, roles: set<string>, suffixes: seq<string>)
    requires Winners(cands, es, roles, suffixes)
    ensures Firsts(es, |es|) == es
  {
    forall i | 0 <= i < |es| ensures Truthy(es[i].email) {
      assert Stems(cands, es[i], roles, suffixes);
    }
    DistinctAreFirsts(es, |es|);
  }
}
