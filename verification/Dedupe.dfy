/** The one-off merge of leads that share an address, before addresses become unique. */
module Dedupe {
  import opened Prelude
  import opened LeadStore
  import LeadDb

  datatype Person = Person(email: string, band: Text, fields: Fields)

  datatype Occ = Occ(lead: int, job: int)

  /** Leads by id, the lead of each campaign e-mail (none for test recipients), occurrences by id. */
  datatype Tables = Tables(leads: map<int, Person>, mails: map<int, Option<int>>, occurrences: map<int, Occ>)

  function SameEmail(leads: map<int, Person>, email: string): set<int> {
    set id | id in leads && leads[id].email == email
  }

  /** Foreign keys hold and a lead occurs at most once per job. */
  ghost predicate Consistent(t: Tables) {
    && (forall m :: m in t.mails && t.mails[m].Some? ==> t.mails[m].value in t.leads)
    && (forall o :: o in t.occurrences ==> t.occurrences[o].lead in t.leads)
    && (forall o, p :: o in t.occurrences && p in t.occurrences && t.occurrences[o] == t.occurrences[p] ==> o == p)
  }

  predicate Beats(leads: map<int, Person>, c: int, d: int)
    requires c in leads && d in leads
  {
    Rank(leads[c].band) > Rank(leads[d].band) || (Rank(leads[c].band) == Rank(leads[d].band) && c <= d)
  }

  /** The row that stays: the highest band, then the lowest id. */
  function Canonical(leads: map<int, Person>, rows: set<int>): (c: int)
    requires rows != {} && rows <= leads.Keys
    ensures c in rows && forall d :: d in rows ==> Beats(leads, c, d)
  {
    var high := set d | d in rows && Rank(leads[d].band) == 1;
    var low := set d | d in rows && Rank(leads[d].band) == 0;
    assert forall d :: d in rows ==> d in high || d in low || Rank(leads[d].band) == -1;
    if high != {} then Least(high) else if low != {} then Least(low) else Least(rows)
  }

  /** HIGH before LOW before no band, and the lowest id among equals. */
  lemma CanonicalIsHighest(leads: map<int, Person>, rows: set<int>)
    requires rows != {} && rows <= leads.Keys
    ensures var c := Canonical(leads, rows);
            && c in rows
            && (forall d :: d in rows && leads[d].band == Some("HIGH") ==> leads[c].band == Some("HIGH") && c <= d)
            && (forall d :: d in rows && leads[d].band == Some("LOW") ==>
                  leads[c].band == Some("HIGH") || (leads[c].band == Some("LOW") && c <= d))
            && (forall d :: d in rows && leads[d].band !in {Some("HIGH"), Some("LOW")} ==>
                  leads[c].band in {Some("HIGH"), Some("LOW")} || c <= d)
  {
  }

  // ---- one duplicate ----

  /** Occurrences after those in done moved to lead c, dropping the ones c already has for the job. */
  function Repointed(occurrences: map<int, Occ>, c: int, done: set<int>): map<int, Occ> {
    map o | o in occurrences && !(o in done && Occ(c, occurrences[o].job) in occurrences.Values) ::
      if o in done then Occ(c, occurrences[o].job) else occurrences[o]
  }

  function OccurrencesOf(occurrences: map<int, Occ>, lead: int): set<int> {
    set o | o in occurrences && occurrences[o].lead == lead
  }

  /** The row c with the texts of d filled in; band is the band of c as read before the merge. */
  function MergedPerson(c: Person, d: Person, band: Text): Person {
    Person(c.email, if Rank(d.band) > Rank(band) then d.band else c.band, Filled(c.fields, d.fields))
  }

  /** Duplicate d merged into row c. */
  function MergedRow(t: Tables, c: int, d: int, band: Text): Tables
    requires c in t.leads && d in t.leads && c != d
  {
    Tables(t.leads[c := MergedPerson(t.leads[c], t.leads[d], band)] - {d},
           map m | m in t.mails :: if t.mails[m] == Some(d) then Some(c) else t.mails[m],
           Repointed(t.occurrences, c, OccurrencesOf(t.occurrences, d)))
  }

  // ---- what a merge keeps ----

  function EmailOf(leads: map<int, Person>, id: int): string {
    if id in leads then leads[id].email else ""
  }

  function MailTo(t: Tables, m: int): Option<string>
    requires m in t.mails
  {
    if t.mails[m].None? then None else Some(EmailOf(t.leads, t.mails[m].value))
  }

  /** The address and the job of an occurrence. */
  function CaptureOf(t: Tables, o: int): (string, int)
    requires o in t.occurrences
  {
    (EmailOf(t.leads, t.occurrences[o].lead), t.occurrences[o].job)
  }

  function Captures(t: Tables): set<(string, int)> {
    set o | o in t.occurrences :: CaptureOf(t, o)
  }

  /** Every campaign e-mail still goes to a lead with the same address. */
  ghost predicate MailsKept(a: Tables, b: Tables) {
    b.mails.Keys == a.mails.Keys && forall m :: m in a.mails ==> MailTo(b, m) == MailTo(a, m)
  }

  /** No (address, job) pair is lost and none is new. */
  ghost predicate CapturesKept(a: Tables, b: Tables) {
    && (forall o :: o in b.occurrences ==> o in a.occurrences && CaptureOf(b, o) == CaptureOf(a, o))
    && Captures(b) == Captures(a)
  }

  /** Column f of the survivor c of the rows: its own text if it has one, else a text of some other row, and blank only when all are. */
  ghost predicate FieldFrom(leads: map<int, Person>, rows: set<int>, c: int, f: Field, after: Text)
    requires c in rows && rows <= leads.Keys && f in ALL_FIELDS
  {
    && (Truthy(leads[c].fields[f]) ==> after == leads[c].fields[f])
    && (Truthy(after) <==> exists d :: d in rows && Truthy(leads[d].fields[f]))
    && (if Truthy(after) then exists d :: d in rows && leads[d].fields[f] == after else after == leads[c].fields[f])
  }

  ghost predicate Survives(a: map<int, Person>, rows: set<int>, c: int, after: Person)
    requires c in rows && rows <= a.Keys
  {
    && after.email == a[c].email && after.band == a[c].band
    && forall f :: f in ALL_FIELDS ==> FieldFrom(a, rows, c, f, after.fields[f])
  }

  /** The duplicates in done have been merged into c; nothing else about the leads changed. */
  ghost predicate LeadsMerged(a: map<int, Person>, b: map<int, Person>, c: int, done: set<int>) {
    && c in a && c !in done && done <= a.Keys
    && b.Keys == a.Keys - done
    && (forall id :: id in b && id != c ==> b[id] == a[id])
    && Survives(a, done + {c}, c, b[c])
  }

  ghost predicate Merging(a: Tables, b: Tables, c: int, done: set<int>) {
    LeadsMerged(a.leads, b.leads, c, done) && MailsKept(a, b) && CapturesKept(a, b) && Consistent(b)
  }

  lemma FieldsGrow(a: map<int, Person>, rows: set<int>, c: int, d: int, f: Field, own: Fields)
    requires c in rows && d !in rows && rows + {d} <= a.Keys && f in ALL_FIELDS
    requires FieldFrom(a, rows, c, f, own[f])
    ensures FieldFrom(a, rows + {d}, c, f, Filled(own, a[d].fields)[f])
  {
    var after := Filled(own, a[d].fields)[f];
    if Truthy(own[f]) {
      var x :| x in rows && Truthy(a[x].fields[f]);
      assert x in rows + {d};
      var y :| y in rows && a[y].fields[f] == own[f];
      assert y in rows + {d};
    } else if Truthy(a[d].fields[f]) {
      assert d in rows + {d} && a[d].fields[f] == after;
    }
  }

  lemma MergedMails(t: Tables, c: int, d: int, band: Text)
    requires Consistent(t) && c in t.leads && d in t.leads && c != d && t.leads[c].email == t.leads[d].email
    ensures MailsKept(t, MergedRow(t, c, d, band))
  {
  }

  lemma MergedCaptures(t: Tables, c: int, d: int, band: Text)
    requires Consistent(t) && c in t.leads && d in t.leads && c != d && t.leads[c].email == t.leads[d].email
    ensures CapturesKept(t, MergedRow(t, c, d, band))
  {
    var u := MergedRow(t, c, d, band);
    forall o | o in t.occurrences ensures CaptureOf(t, o) in Captures(u) {
      if o in u.occurrences {
        assert CaptureOf(u, o) == CaptureOf(t, o);
      } else {
        var p := KeyWith(t.occurrences, Occ(c, t.occurrences[o].job));
        assert p in u.occurrences && CaptureOf(u, p) == CaptureOf(t, o);
      }
    }
    forall o | o in u.occurrences ensures CaptureOf(u, o) == CaptureOf(t, o) {
    }
  }

  lemma MergedConsistent(t: Tables, c: int, d: int, band: Text)
    requires Consistent(t) && c in t.leads && d in t.leads && c != d
    ensures Consistent(MergedRow(t, c, d, band))
  {
  }

  lemma MailsKeptOn(a: Tables, b: Tables, u: Tables)
    requires MailsKept(a, b) && MailsKept(b, u)
    ensures MailsKept(a, u)
  {
  }

  lemma CapturesKeptOn(a: Tables, b: Tables, u: Tables)
    requires CapturesKept(a, b) && CapturesKept(b, u)
    ensures CapturesKept(a, u)
  {
  }

  lemma SurvivesNext(a: map<int, Person>, rows: set<int>, c: int, d: int, own: Person)
    requires c in rows && d !in rows && rows + {d} <= a.Keys && Survives(a, rows, c, own)
    requires Rank(a[d].band) <= Rank(a[c].band)
    ensures Survives(a, rows + {d}, c, MergedPerson(own, a[d], a[c].band))
  {
    forall f | f in ALL_FIELDS ensures FieldFrom(a, rows + {d}, c, f, Filled(own.fields, a[d].fields)[f]) {
      FieldsGrow(a, rows, c, d, f, own.fields);
    }
  }

  lemma LeadsMergeNext(a: map<int, Person>, b: map<int, Person>, c: int, d: int, done: set<int>)
    requires LeadsMerged(a, b, c, done) && d in b && d != c && a[d].email == a[c].email
    requires Rank(a[d].band) <= Rank(a[c].band)
    ensures LeadsMerged(a, b[c := MergedPerson(b[c], b[d], a[c].band)] - {d}, c, done + {d})
  {
    assert done + {d} + {c} == done + {c} + {d};
    SurvivesNext(a, done + {c}, c, d, b[c]);
  }

  lemma MergeNext(a: Tables, b: Tables, c: int, d: int, done: set<int>)
    requires Merging(a, b, c, done) && d in b.leads && d != c && a.leads[d].email == a.leads[c].email
    requires Rank(a.leads[d].band) <= Rank(a.leads[c].band)
    ensures Merging(a, MergedRow(b, c, d, a.leads[c].band), c, done + {d})
  {
    var u := MergedRow(b, c, d, a.leads[c].band);
    MergedMails(b, c, d, a.leads[c].band);
    MergedCaptures(b, c, d, a.leads[c].band);
    MergedConsistent(b, c, d, a.leads[c].band);
    MailsKeptOn(a, b, u);
    CapturesKeptOn(a, b, u);
    LeadsMergeNext(a.leads, b.leads, c, d, done);
  }

  // ---- the whole pass ----

  ghost predicate IsCanonical(leads: map<int, Person>, c: int) {
    c in leads && forall d :: d in leads && leads[d].email == leads[c].email ==> Beats(leads, c, d)
  }

  /** Addresses in left are untouched; every other one has been reduced to its canonical row. */
  ghost predicate LeadsReduced(a: map<int, Person>, b: map<int, Person>, left: set<string>) {
    RowsReduced(a, b, left) && SurvivorsFilled(a, b, left)
  }

  ghost predicate RowsReduced(a: map<int, Person>, b: map<int, Person>, left: set<string>) {
    && (forall id :: id in b ==> id in a && b[id].email == a[id].email)
    && (forall id :: id in a && a[id].email in left ==> id in b && b[id] == a[id])
    && (forall id :: id in a && a[id].email !in left ==> (id in b <==> IsCanonical(a, id)))
  }

  ghost predicate SurvivorsFilled(a: map<int, Person>, b: map<int, Person>, left: set<string>) {
    forall id :: id in b && b[id].email !in left ==> id in a && Survives(a, SameEmail(a, a[id].email), id, b[id])
  }

  ghost predicate Reduced(a: Tables, b: Tables, left: set<string>) {
    LeadsReduced(a.leads, b.leads, left) && MailsKept(a, b) && CapturesKept(a, b) && Consistent(b)
  }

  /** b is a with duplicates merged away. */
  ghost predicate Deduped(a: Tables, b: Tables) {
    Reduced(a, b, {})
  }

  lemma NothingLost(a: Tables)
    requires Consistent(a)
    ensures MailsKept(a, a) && CapturesKept(a, a)
  {
  }

  lemma AloneSurvives(a: map<int, Person>, id: int, rows: set<int>)
    requires id in a && rows == {id}
    ensures Survives(a, rows, id, a[id])
  {
    forall f | f in ALL_FIELDS ensures FieldFrom(a, rows, id, f, a[id].fields[f]) {
      assert id in rows;
    }
  }

  lemma MergingStart(a: Tables, c: int)
    requires Consistent(a) && c in a.leads
    ensures Merging(a, a, c, {})
  {
    NothingLost(a);
    AloneSurvives(a.leads, c, {} + {c});
  }

  lemma GroupUntouched(a: map<int, Person>, b: map<int, Person>, left: set<string>, email: string)
    requires LeadsReduced(a, b, left) && email in left
    ensures SameEmail(b, email) == SameEmail(a, email)
  {
    assert forall id :: id in SameEmail(b, email) <==> id in SameEmail(a, email);
  }

  lemma CanonicalIs(a: map<int, Person>, email: string)
    requires SameEmail(a, email) != {}
    ensures IsCanonical(a, Canonical(a, SameEmail(a, email))) && a[Canonical(a, SameEmail(a, email))].email == email
  {
    var c := Canonical(a, SameEmail(a, email));
    forall d | d in a && a[d].email == email ensures Beats(a, c, d) {
      assert d in SameEmail(a, email);
    }
  }

  lemma SurvivesAlike(a: map<int, Person>, b: map<int, Person>, rows: set<int>, c: int, after: Person)
    requires c in rows && rows <= a.Keys && rows <= b.Keys && forall d :: d in rows ==> b[d] == a[d]
    requires Survives(b, rows, c, after)
    ensures Survives(a, rows, c, after)
  {
    forall f | f in ALL_FIELDS ensures FieldFrom(a, rows, c, f, after.fields[f]) {
      assert FieldFrom(b, rows, c, f, after.fields[f]);
    }
  }

  /** Of the rows with the address only c is left; the others are as they were. */
  ghost predicate OneLeft(b: map<int, Person>, u: map<int, Person>, email: string, c: int) {
    && c in u && u[c].email == email
    && (forall id :: id in u ==> id in b && (id == c || u[id] == b[id]))
    && (forall id :: id in b ==> (id in u <==> id == c || b[id].email != email))
  }

  lemma MergedToOne(b: map<int, Person>, u: map<int, Person>, email: string, c: int)
    requires c in SameEmail(b, email) && LeadsMerged(b, u, c, SameEmail(b, email) - {c})
    ensures OneLeft(b, u, email, c)
  {
  }

  lemma OnlyOneBeatsAll(a: map<int, Person>, c: int, id: int)
    requires IsCanonical(a, c) && IsCanonical(a, id) && a[id].email == a[c].email
    ensures id == c
  {
    assert Beats(a, id, c) && Beats(a, c, id);
  }

  lemma RowsReduceNext(a: map<int, Person>, b: map<int, Person>, u: map<int, Person>, left: set<string>, email: string, c: int)
    requires RowsReduced(a, b, left) && email in left && OneLeft(b, u, email, c)
    requires c in a && a[c].email == email && IsCanonical(a, c)
    ensures RowsReduced(a, u, left - {email})
  {
    forall id | id in a && a[id].email !in left - {email} ensures id in u <==> IsCanonical(a, id) {
      if a[id].email == email && IsCanonical(a, id) {
        OnlyOneBeatsAll(a, c, id);
      }
    }
  }

  lemma SurvivorsNext(a: map<int, Person>, b: map<int, Person>, u: map<int, Person>, left: set<string>, email: string, c: int)
    requires SurvivorsFilled(a, b, left) && OneLeft(b, u, email, c)
    requires c in a && a[c].email == email && Survives(a, SameEmail(a, email), c, u[c])
    ensures SurvivorsFilled(a, u, left - {email})
  {
    forall id | id in u && u[id].email !in left - {email}
      ensures id in a && Survives(a, SameEmail(a, a[id].email), id, u[id])
    {
      if id != c {
        assert u[id] == b[id] && b[id].email != email;
      }
    }
  }

  /** Merging one more address. */
  lemma ReduceNext(a: map<int, Person>, b: map<int, Person>, u: map<int, Person>, left: set<string>, email: string, c: int)
    requires LeadsReduced(a, b, left) && email in left
    requires c in a && a[c].email == email && IsCanonical(a, c)
    requires LeadsMerged(b, u, c, SameEmail(b, email) - {c})
    ensures LeadsReduced(a, u, left - {email})
  {
    var rows := SameEmail(a, email);
    GroupUntouched(a, b, left, email);
    assert rows - {c} + {c} == rows;
    SurvivesAlike(a, b, rows, c, u[c]);
    MergedToOne(b, u, email, c);
    RowsReduceNext(a, b, u, left, email, c);
    SurvivorsNext(a, b, u, left, email, c);
  }

  /** The rows share the address of c, and c stays. */
  ghost predicate Duplicates(leads: map<int, Person>, c: int, rows: set<int>) {
    c in leads && forall d :: d in rows ==> d in leads && d != c && leads[d].email == leads[c].email && Beats(leads, c, d)
  }

  function Elements(s: seq<int>): set<int> {
    set x | x in s
  }

  lemma OneMore(s: seq<int>, x: int)
    ensures Elements(s + [x]) == Elements(s) + {x}
  {
    forall y | y in Elements(s) + {x} ensures y in Elements(s + [x]) {
      if y == x {
        assert (s + [x])[|s|] == x;
      }
    }
  }

  /** The rows ds merged into c one after the other. */
  function MergedRows(t: Tables, c: int, ds: seq<int>, band: Text): Tables {
    if ds == [] then t
    else
      var u := MergedRows(t, c, ds[..|ds| - 1], band);
      var d := ds[|ds| - 1];
      if c in u.leads && d in u.leads && c != d then MergedRow(u, c, d, band) else u
  }

  lemma {:induction false} MergedRowsMerge(t: Tables, c: int, ds: seq<int>, band: Text)
    requires Consistent(t) && Duplicates(t.leads, c, Elements(ds)) && band == t.leads[c].band
    requires forall i, j :: 0 <= i < j < |ds| ==> ds[i] != ds[j]
    ensures Merging(t, MergedRows(t, c, ds, band), c, Elements(ds))
  {
    if ds == [] {
      MergingStart(t, c);
    } else {
      var init, d := ds[..|ds| - 1], ds[|ds| - 1];
      assert ds == init + [d];
      OneMore(init, d);
      MergedRowsMerge(t, c, init, band);
      MergeNext(t, MergedRows(t, c, init, band), c, d, Elements(init));
    }
  }

  /** The order lists the rows of a set, each once. */
  ghost predicate Orders(order: seq<int>, rows: set<int>) {
    Elements(order) == rows && forall i, j :: 0 <= i < j < |order| ==> order[i] != order[j]
  }

  lemma OrdersNext(order: seq<int>, rows: set<int>, d: int)
    requires Orders(order, rows) && d !in rows
    ensures Orders(order + [d], rows + {d})
  {
    OneMore(order, d);
    assert forall i :: 0 <= i < |order| ==> order[i] in Elements(order);
  }

  /** The next row can be merged, and merging it is what the longer order says. */
  lemma MergeOneMore(t: Tables, c: int, order: seq<int>, done: set<int>, d: int, band: Text)
    requires Consistent(t) && Duplicates(t.leads, c, done + {d}) && band == t.leads[c].band && Orders(order, done) && d !in done
    ensures var u := MergedRows(t, c, order, band);
            && c in u.leads && d in u.leads && c != d && Consistent(u)
            && MergedRows(t, c, order + [d], band) == MergedRow(u, c, d, band)
  {
    MergedRowsMerge(t, c, order, band);
    assert (order + [d])[..|order|] == order;
  }

  class MergeMigration {
    var leads: map<int, Person>
    var mails: map<int, Option<int>>
    var occurrences: map<int, Occ>

    constructor (t: Tables)
      ensures View() == t
    {
      leads, mails, occurrences := t.leads, t.mails, t.occurrences;
    }

    function View(): Tables
      reads this
    {
      Tables(leads, mails, occurrences)
    }

    /** Moves the occurrences of row d to row c one by one. */
    method RepointOccurrences(c: int, d: int)
      requires c != d
      requires forall o, p :: o in occurrences && p in occurrences && occurrences[o] == occurrences[p] ==> o == p
      modifies `occurrences
      ensures occurrences == Repointed(old(occurrences), c, OccurrencesOf(old(occurrences), d))
    {
      ghost var before := occurrences;
      ghost var done: set<int> := {};
      var own := OccurrencesOf(occurrences, d);
      while own != {}
        invariant done + own == OccurrencesOf(before, d) && done !! own
        invariant occurrences == Repointed(before, c, done)
        decreases own
      {
        ghost var any := Member(own);
        var o :| o in own;
        RepointNext(before, c, d, done, o);
        if Occ(c, occurrences[o].job) in occurrences.Values {
          occurrences := occurrences - {o};
        } else {
          occurrences := occurrences[o := Occ(c, occurrences[o].job)];
        }
        own := own - {o};
        done := done + {o};
      }
    }

    method MergeRow(c: int, d: int, band: Text)
      requires c in leads && d in leads && c != d && Consistent(View())
      modifies this
      ensures View() == MergedRow(old(View()), c, d, band)
    {
      var row, dup := leads[c], leads[d];
      var fields, _ := LeadDb.FillBlanks(row.fields, dup.fields);
      row := row.(fields := fields);
      if Rank(dup.band) > Rank(band) {
        row := row.(band := dup.band);
      }
      leads := leads[c := row];
      mails := map m | m in mails :: if mails[m] == Some(d) then Some(c) else mails[m];
      RepointOccurrences(c, d);
      leads := leads - {d};
    }

    /** Merges rows into row c, in any order. */
    method MergeRows(c: int, rows: set<int>) returns (ghost order: seq<int>)
      requires Consistent(View()) && Duplicates(leads, c, rows)
      modifies this
      ensures Orders(order, rows)
      ensures View() == MergedRows(old(View()), c, order, old(leads)[c].band)
    {
      var band := leads[c].band;
      var left := rows;
      ghost var before := View();
      order := [];
      while left != {}
        invariant View() == MergedRows(before, c, order, band)
        invariant Orders(order, rows - left) && left <= rows
        decreases left
      {
        ghost var any := Member(left);
        var d :| d in left;
        MergeOneMore(before, c, order, rows - left, d, band);
        MergeRow(c, d, band);
        OrdersNext(order, rows - left, d);
        order := order + [d];
        assert rows - left + {d} == rows - (left - {d});
        left := left - {d};
      }
      assert rows - {} == rows;
    }

    /** Merges all rows of one address into the canonical one. */
    method MergeGroup(email: string) returns (merged: nat)
      requires Consistent(View()) && SameEmail(leads, email) != {}
      modifies this
      ensures var rows := SameEmail(old(leads), email);
              var c := Canonical(old(leads), rows);
              Merging(old(View()), View(), c, rows - {c}) && merged == |rows - {c}|
    {
      var rows := SameEmail(leads, email);
      var canonical := Canonical(leads, rows);
      merged := |rows - {canonical}|;
      ghost var order := MergeRows(canonical, rows - {canonical});
      MergedRowsMerge(old(View()), canonical, order, old(leads)[canonical].band);
    }

    /** Every address with more than one row is merged; the count is the number of rows removed. */
    method DedupeLeads() returns (merged: nat)
      requires Consistent(View())
      modifies this
      ensures Deduped(old(View()), View())
      ensures merged == |old(leads)| - |leads|
    {
      var dupes := set id | id in leads && |SameEmail(leads, leads[id].email)| > 1 :: leads[id].email;
      ghost var before := View();
      merged := 0;
      StartReduced(before, dupes);
      while dupes != {}
        invariant Reduced(before, View(), dupes) && merged == |before.leads| - |leads|
        invariant forall e :: e in dupes ==> SameEmail(before.leads, e) != {}
        decreases dupes
      {
        var email :| email in dupes;
        ghost var was := View();
        GroupUntouched(before.leads, was.leads, dupes, email);
        var n := MergeGroup(email);
        GroupReduced(before, was, View(), dupes, email);
        RowsGone(was.leads, leads, SameEmail(was.leads, email) - {Canonical(was.leads, SameEmail(was.leads, email))});
        dupes := dupes - {email};
        merged := merged + n;
      }
    }
  }

  lemma RepointNext(occurrences: map<int, Occ>, c: int, d: int, done: set<int>, o: int)
    requires c != d && done <= OccurrencesOf(occurrences, d) && o in OccurrencesOf(occurrences, d) && o !in done
    requires forall o, p :: o in occurrences && p in occurrences && occurrences[o] == occurrences[p] ==> o == p
    ensures var now := Repointed(occurrences, c, done);
            o in now && now[o] == occurrences[o] &&
            Repointed(occurrences, c, done + {o}) ==
              if Occ(c, now[o].job) in now.Values then now - {o} else now[o := Occ(c, now[o].job)]
  {
    var now := Repointed(occurrences, c, done);
    var moved := Occ(c, occurrences[o].job);
    if moved in occurrences.Values {
      var p := KeyWith(occurrences, moved);
      assert p in now && now[p] == moved;
    } else if moved in now.Values {
      var p := KeyWith(now, moved);
      assert false;
    }
  }

  lemma StartReduced(a: Tables, dupes: set<string>)
    requires Consistent(a)
    requires dupes == set id | id in a.leads && |SameEmail(a.leads, a.leads[id].email)| > 1 :: a.leads[id].email
    ensures Reduced(a, a, dupes)
    ensures forall e :: e in dupes ==> SameEmail(a.leads, e) != {}
  {
    NothingLost(a);
    forall id | id in a.leads && a.leads[id].email !in dupes
      ensures IsCanonical(a.leads, id)
      ensures Survives(a.leads, SameEmail(a.leads, a.leads[id].email), id, a.leads[id])
    {
      var rows := SameEmail(a.leads, a.leads[id].email);
      assert id in rows && |rows - {id}| == 0;
      assert rows == {id};
      assert forall d :: d in a.leads && a.leads[d].email == a.leads[id].email ==> d in rows;
      AloneSurvives(a.leads, id, rows);
    }
  }

  lemma GroupReduced(a: Tables, b: Tables, u: Tables, left: set<string>, email: string)
    requires Reduced(a, b, left) && email in left && SameEmail(b.leads, email) != {}
    requires var rows := SameEmail(b.leads, email);
             var c := Canonical(b.leads, rows);
             Merging(b, u, c, rows - {c})
    ensures Reduced(a, u, left - {email})
  {
    var rows := SameEmail(b.leads, email);
    GroupUntouched(a.leads, b.leads, left, email);
    SameCanonical(a.leads, b.leads, rows);
    CanonicalIs(a.leads, email);
    ReduceNext(a.leads, b.leads, u.leads, left, email, Canonical(a.leads, rows));
    MailsKeptOn(a, b, u);
    CapturesKeptOn(a, b, u);
  }

  lemma SameCanonical(a: map<int, Person>, b: map<int, Person>, rows: set<int>)
    requires rows != {} && rows <= a.Keys && rows <= b.Keys && forall d :: d in rows ==> b[d] == a[d]
    ensures Canonical(a, rows) == Canonical(b, rows)
  {
    var c, d := Canonical(a, rows), Canonical(b, rows);
    assert Beats(a, c, d) && Beats(b, d, c);
  }

  lemma RowsGone(a: map<int, Person>, b: map<int, Person>, gone: set<int>)
    requires b.Keys == a.Keys - gone && gone <= a.Keys
    ensures |b| == |a| - |gone|
  {
    assert |a| == |a.Keys| && |b| == |b.Keys|;
  }

  /** Afterwards every address has exactly one lead, with the highest band of its rows, and no address is lost. */
  lemma OneLeadPerEmail(a: Tables, b: Tables, id: int) returns (c: int)
    requires Deduped(a, b) && id in a.leads
    ensures SameEmail(b.leads, a.leads[id].email) == {c}
    ensures c in SameEmail(a.leads, a.leads[id].email)
    ensures forall d :: d in SameEmail(a.leads, a.leads[id].email) ==> Rank(a.leads[d].band) <= Rank(b.leads[c].band)
  {
    var email := a.leads[id].email;
    assert id in SameEmail(a.leads, email);
    c := Canonical(a.leads, SameEmail(a.leads, email));
    CanonicalIs(a.leads, email);
    assert c in b.leads && Survives(a.leads, SameEmail(a.leads, email), c, b.leads[c]);
    forall d | d in SameEmail(b.leads, email) ensures d == c {
      assert IsCanonical(a.leads, d) && Beats(a.leads, d, c) && Beats(a.leads, c, d);
    }
  }

  /** The leads left by one pass are each alone with their address. */
  lemma DedupedAlone(a: Tables, b: Tables, id: int)
    requires Deduped(a, b) && id in b.leads
    ensures SameEmail(b.leads, b.leads[id].email) == {id}
  {
    var c := OneLeadPerEmail(a, b, id);
    assert id in SameEmail(b.leads, a.leads[id].email);
  }

  /** A row that survives alone is as it was. */
  lemma AloneAsBefore(b: map<int, Person>, id: int, after: Person)
    requires id in b && Survives(b, {id}, id, after)
    ensures after == b[id]
  {
    forall f | f in ALL_FIELDS ensures after.fields[f] == b[id].fields[f] {
      assert FieldFrom(b, {id}, id, f, after.fields[f]);
    }
    assert after.fields == b[id].fields;
  }

  lemma AloneIsCanonical(b: map<int, Person>, id: int)
    requires id in b && SameEmail(b, b[id].email) == {id}
    ensures IsCanonical(b, id)
  {
    forall d | d in b && b[d].email == b[id].email ensures d == id {
      assert d in SameEmail(b, b[id].email);
    }
  }

  lemma CanonicalSurvives(b: map<int, Person>, u: map<int, Person>, id: int)
    requires LeadsReduced(b, u, {}) && IsCanonical(b, id)
    ensures id in u && id in SameEmail(b, b[id].email) && Survives(b, SameEmail(b, b[id].email), id, u[id])
  {
  }

  lemma AloneUnchanged(b: map<int, Person>, u: map<int, Person>, id: int)
    requires LeadsReduced(b, u, {}) && id in b && SameEmail(b, b[id].email) == {id}
    ensures id in u && u[id] == b[id]
  {
    AloneIsCanonical(b, id);
    CanonicalSurvives(b, u, id);
    AloneAsBefore(b, id, u[id]);
  }

  lemma SameLead(b: Tables, x: int, y: int)
    requires x in b.leads && y in b.leads && b.leads[x].email == b.leads[y].email
    requires SameEmail(b.leads, b.leads[x].email) == {x}
    ensures x == y
  {
    assert y in SameEmail(b.leads, b.leads[x].email);
  }

  lemma SecondRunOccurrences(a: Tables, b: Tables, u: Tables, o: int)
    requires Deduped(a, b) && Deduped(b, u) && u.leads == b.leads && o in b.occurrences
    ensures o in u.occurrences && u.occurrences[o] == b.occurrences[o]
  {
    assert CaptureOf(b, o) in Captures(u);
    var p :| p in u.occurrences && CaptureOf(u, p) == CaptureOf(b, o);
    DedupedAlone(a, b, b.occurrences[o].lead);
    SameLead(b, b.occurrences[o].lead, u.occurrences[p].lead);
    assert CaptureOf(b, p) == CaptureOf(u, p);
    SameLead(b, b.occurrences[o].lead, b.occurrences[p].lead);
    assert b.occurrences[p] == b.occurrences[o];
  }

  lemma SecondRunMails(a: Tables, b: Tables, u: Tables, m: int)
    requires Deduped(a, b) && Deduped(b, u) && u.leads == b.leads && m in b.mails
    ensures u.mails[m] == b.mails[m]
  {
    assert MailTo(u, m) == MailTo(b, m);
    if b.mails[m].Some? {
      DedupedAlone(a, b, b.mails[m].value);
      SameLead(b, b.mails[m].value, u.mails[m].value);
    }
  }

  /** A second pass changes no table at all. */
  lemma SecondRunChangesNothing(a: Tables, b: Tables, u: Tables)
    requires Deduped(a, b) && Deduped(b, u)
    ensures u == b
  {
    forall id | id in b.leads ensures id in u.leads && u.leads[id] == b.leads[id] {
      DedupedAlone(a, b, id);
      AloneUnchanged(b.leads, u.leads, id);
    }
    SameMap(b.leads, u.leads);
    forall m | m in b.mails ensures u.mails[m] == b.mails[m] {
      SecondRunMails(a, b, u, m);
    }
    forall o | o in b.occurrences ensures o in u.occurrences && u.occurrences[o] == b.occurrences[o] {
      SecondRunOccurrences(a, b, u, o);
    }
    SameMap(b.occurrences, u.occurrences);
    SameMap(b.mails, u.mails);
  }
}
