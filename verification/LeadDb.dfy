/** The lead tables updated in place by the capture, upload, edit and recompute sessions. */
module LeadDb {
  import opened Prelude
  import opened LeadStore

  /** What may go wrong in one save besides a malformed item. */
  datatype Fault =
    | NoFault
    | FailsEarly       // the database raises before anything is committed
    | FailsLate        // it raises after the lead was committed and before the occurrence is
    | Collides         // another session inserts the same address first, so the insert is refused

  /** What save_lead gives its caller. */
  datatype Answer = Accepted | Rejected | Raised

  /** How far a save gets: a collision concerns inserts only. */
  function OutcomeOf(s: Store, p: Capture, fault: Fault): Outcome {
    if !Truthy(p.email) || fault.NoFault? then Stored
    else if fault.FailsEarly? || (fault.Collides? && Lower(p.email.value) !in s.leads) then Refused
    else if fault.FailsLate? then LeadOnly
    else Stored
  }

  function Attempted(w: Weights, s: Store, p: Capture, user: Option<int>, attr: Attribution, fault: Fault): Store {
    match OutcomeOf(s, p, fault)
    case Refused => s
    case LeadOnly => LeadSaved(w, s, p, attr)
    case Stored => Saved(w, s, p, user, attr)
  }

  /** The store after the first n items of a batch; a malformed item is None. */
  function AfterItems(w: Weights, s: Store, items: seq<Option<Capture>>, n: nat, user: Option<int>, attr: int -> Attribution,
                      faults: int -> Fault): Store
    requires n <= |items|
  {
    if n == 0 then s
    else
      var before := AfterItems(w, s, items, n - 1, user, attr, faults);
      if items[n - 1].None? then before
      else Attempted(w, before, items[n - 1].value, user, attr(n - 1), faults(n - 1))
  }

  /** Item i of a batch is stored: it is well-formed, has an address and meets no fault. */
  predicate ItemStored(w: Weights, s: Store, items: seq<Option<Capture>>, i: nat, user: Option<int>, attr: int -> Attribution,
                       faults: int -> Fault)
    requires i < |items|
  {
    items[i].Some? && Truthy(items[i].value.email)
    && OutcomeOf(AfterItems(w, s, items, i, user, attr, faults), items[i].value, faults(i)).Stored?
  }

  lemma AttemptKeepsAbsorbed(w: Weights, s: Store, q: Capture, user: Option<int>, attr: Attribution, fault: Fault, p: Capture)
    requires Absorbs(s, p)
    ensures Absorbs(Attempted(w, s, q, user, attr, fault), p)
  {
    LeadSaveKeepsAbsorbed(w, s, q, attr, p);
    SaveKeepsAbsorbed(w, s, q, user, attr, p);
  }

  lemma StoredAttemptAbsorbs(w: Weights, s: Store, p: Capture, user: Option<int>, attr: Attribution, fault: Fault)
    requires OutcomeOf(s, p, fault).Stored?
    ensures Absorbs(Attempted(w, s, p, user, attr, fault), p)
  {
    SavedAbsorbs(w, s, p, user, attr);
  }

  /** An item reported as stored is in the store at the end of its batch, whatever happened to the others. */
  lemma {:induction false} StoredItemsAreAbsorbed(w: Weights, s: Store, items: seq<Option<Capture>>, n: nat, user: Option<int>,
                                                  attr: int -> Attribution, faults: int -> Fault, i: nat)
    requires i < n <= |items| && ItemStored(w, s, items, i, user, attr, faults)
    ensures Absorbs(AfterItems(w, s, items, n, user, attr, faults), items[i].value)
  {
    var before := AfterItems(w, s, items, n - 1, user, attr, faults);
    if i == n - 1 {
      StoredAttemptAbsorbs(w, before, items[i].value, user, attr(i), faults(i));
    } else {
      StoredItemsAreAbsorbed(w, s, items, n - 1, user, attr, faults, i);
      if items[n - 1].Some? {
        AttemptKeepsAbsorbed(w, before, items[n - 1].value, user, attr(n - 1), faults(n - 1), items[i].value);
      }
    }
  }

  function Uploads(rows: seq<ManualRow>, job: int, user: Option<int>): seq<Op> {
    seq(|rows|, i requires 0 <= i < |rows| => UploadOp(rows[i], job, user))
  }

  lemma UploadsNext(w: Weights, s: Store, rows: seq<ManualRow>, row: ManualRow, job: int, user: Option<int>)
    ensures ApplyAll(w, s, Uploads(rows + [row], job, user)) == Uploaded(w, ApplyAll(w, s, Uploads(rows, job, user)), row, job, user)
  {
    ApplyOneMore(w, s, Uploads(rows, job, user), UploadOp(row, job, user));
    assert Uploads(rows + [row], job, user) == Uploads(rows, job, user) + [UploadOp(row, job, user)];
  }

  function EmailsOf(rows: seq<ManualRow>): set<string> {
    set i | 0 <= i < |rows| :: rows[i].email
  }

  lemma EmailsOfMore(rows: seq<ManualRow>, row: ManualRow)
    ensures EmailsOf(rows + [row]) == EmailsOf(rows) + {row.email}
  {
    var more := rows + [row];
    assert more[|rows|] == row;
    assert forall i :: 0 <= i < |rows| ==> more[i] == rows[i];
  }

  /**
   The insert of row i is refused because another session inserts the same address first. Only an
   address neither known before the batch nor brought by an earlier row can collide.
   */
  predicate Collided(known: set<string>, rows: seq<ManualRow>, i: nat, collides: int -> bool)
    requires i < |rows|
    decreases i, 1
  {
    collides(i) && rows[i].email !in known + EmailsOf(Applied(known, rows, i, collides))
  }

  /** The rows among the first n that reach the store. */
  function Applied(known: set<string>, rows: seq<ManualRow>, n: nat, collides: int -> bool): seq<ManualRow>
    requires n <= |rows|
    decreases n, 0
  {
    if n == 0 then []
    else Applied(known, rows, n - 1, collides) + if Collided(known, rows, n - 1, collides) then [] else [rows[n - 1]]
  }

  predicate OfCrawledLead(leads: map<string, Lead>, row: ManualRow) {
    row.email in leads && leads[row.email].channelTag != Some("manual")
  }

  /** The rows among the first n that collided or whose address belongs to a crawled lead. */
  function SkippedRows(known: set<string>, leads: map<string, Lead>, rows: seq<ManualRow>, n: nat, collides: int -> bool): seq<ManualRow>
    requires n <= |rows|
  {
    if n == 0 then []
    else
      SkippedRows(known, leads, rows, n - 1, collides)
      + if Collided(known, rows, n - 1, collides) || OfCrawledLead(leads, rows[n - 1]) then [rows[n - 1]] else []
  }

  ghost predicate KeepsTags(a: map<string, Lead>, b: map<string, Lead>) {
    forall e :: e in a ==> e in b && b[e].channelTag == a[e].channelTag
  }

  lemma UploadKeepsTags(w: Weights, s: Store, row: ManualRow, job: int, user: Option<int>)
    ensures KeepsTags(s.leads, Uploaded(w, s, row, job, user).leads)
    ensures row.email in Uploaded(w, s, row, job, user).leads
    ensures Uploaded(w, s, row, job, user).leads[row.email].channelTag
            == if row.email in s.leads then s.leads[row.email].channelTag else Some("manual")
  {
  }

  /** Rows once sorted into skipped and not stay so while the table only grows. */
  lemma {:induction false} SkippedKept(known: set<string>, a: map<string, Lead>, b: map<string, Lead>, rows: seq<ManualRow>, n: nat,
                                       collides: int -> bool)
    requires n <= |rows| && KeepsTags(a, b) && EmailsOf(Applied(known, rows, n, collides)) <= a.Keys
    ensures SkippedRows(known, a, rows, n, collides) == SkippedRows(known, b, rows, n, collides)
  {
    if n > 0 {
      var before := Applied(known, rows, n - 1, collides);
      EmailsOfMore(before, rows[n - 1]);
      assert before + [] == before;
      SkippedKept(known, a, b, rows, n - 1, collides);
    }
  }

  /** The state of the store after the first n rows of a batch. */
  ghost predicate Reached(w: Weights, before: Store, now: Store, rows: seq<ManualRow>, n: nat, job: int, user: Option<int>,
                          collides: int -> bool)
    requires n <= |rows|
  {
    && now == ApplyAll(w, before, Uploads(Applied(before.leads.Keys, rows, n, collides), job, user))
    && now.leads.Keys == before.leads.Keys + EmailsOf(Applied(before.leads.Keys, rows, n, collides))
  }

  lemma StartReached(w: Weights, before: Store, rows: seq<ManualRow>, job: int, user: Option<int>, collides: int -> bool)
    ensures Reached(w, before, before, rows, 0, job, user, collides)
  {
    assert Uploads([], job, user) == [];
  }

  lemma CollidedRow(w: Weights, before: Store, now: Store, rows: seq<ManualRow>, i: nat, job: int, user: Option<int>,
                    collides: int -> bool)
    requires i < |rows| && Reached(w, before, now, rows, i, job, user, collides)
    requires Collided(before.leads.Keys, rows, i, collides)
    ensures Reached(w, before, now, rows, i + 1, job, user, collides)
  {
    var done := Applied(before.leads.Keys, rows, i, collides);
    assert Applied(before.leads.Keys, rows, i + 1, collides) == done + [];
    assert done + [] == done;
  }

  lemma AppliedRow(w: Weights, before: Store, now: Store, next: Store, rows: seq<ManualRow>, i: nat, job: int, user: Option<int>,
                   collides: int -> bool)
    requires i < |rows| && Reached(w, before, now, rows, i, job, user, collides)
    requires !Collided(before.leads.Keys, rows, i, collides)
    requires next == Uploaded(w, now, rows[i], job, user) && next.leads.Keys == now.leads.Keys + {rows[i].email}
    ensures Reached(w, before, next, rows, i + 1, job, user, collides)
  {
    var done := Applied(before.leads.Keys, rows, i, collides);
    assert Applied(before.leads.Keys, rows, i + 1, collides) == done + [rows[i]];
    EmailsOfMore(done, rows[i]);
    UploadsNext(w, before, done, rows[i], job, user);
  }

  /** How row i is sorted, given the leads before and after it. */
  lemma RowSorted(known: set<string>, a: map<string, Lead>, b: map<string, Lead>, rows: seq<ManualRow>, i: nat, collides: int -> bool)
    requires i < |rows| && a.Keys == known + EmailsOf(Applied(known, rows, i, collides)) && KeepsTags(a, b)
    requires !Collided(known, rows, i, collides) ==>
               rows[i].email in b && (rows[i].email !in a ==> b[rows[i].email].channelTag == Some("manual"))
    ensures SkippedRows(known, b, rows, i + 1, collides)
            == SkippedRows(known, a, rows, i, collides)
               + if Collided(known, rows, i, collides) || OfCrawledLead(a, rows[i]) then [rows[i]] else []
  {
    SkippedKept(known, a, b, rows, i, collides);
  }

  /** One row of a batch, whether it collides or not. */
  lemma RowDone(w: Weights, before: Store, now: Store, next: Store, rows: seq<ManualRow>, i: nat, job: int, user: Option<int>,
                collides: int -> bool)
    requires i < |rows| && Reached(w, before, now, rows, i, job, user, collides)
    requires next == if collides(i) && rows[i].email !in now.leads then now else Uploaded(w, now, rows[i], job, user)
    requires next.leads.Keys == now.leads.Keys + if collides(i) && rows[i].email !in now.leads then {} else {rows[i].email}
    ensures Reached(w, before, next, rows, i + 1, job, user, collides)
    ensures SkippedRows(before.leads.Keys, next.leads, rows, i + 1, collides)
            == SkippedRows(before.leads.Keys, now.leads, rows, i, collides)
               + if (collides(i) && rows[i].email !in now.leads) || OfCrawledLead(now.leads, rows[i]) then [rows[i]] else []
  {
    if Collided(before.leads.Keys, rows, i, collides) {
      CollidedRow(w, before, now, rows, i, job, user, collides);
    } else {
      UploadKeepsTags(w, now, rows[i], job, user);
      AppliedRow(w, before, now, next, rows, i, job, user, collides);
    }
    RowSorted(before.leads.Keys, now.leads, next.leads, rows, i, collides);
  }

  lemma GrownBy<K, V>(a: map<K, V>, b: map<K, V>, k: K)
    requires b.Keys == a.Keys + {k}
    ensures |b| == |a| + if k in a then 0 else 1
  {
    assert |a| == |a.Keys| && |b| == |b.Keys|;
    if k in a {
      assert a.Keys + {k} == a.Keys;
    }
  }

  /** Batches of captures keep every stored score the score of its row, whatever faults they meet. */
  lemma {:induction false} BatchKeepsScored(w: Weights, s: Store, items: seq<Option<Capture>>, n: nat, user: Option<int>,
                                            attr: int -> Attribution, faults: int -> Fault)
    requires Scored(w, s) && n <= |items|
    ensures Scored(w, AfterItems(w, s, items, n, user, attr, faults))
  {
    if n > 0 {
      BatchKeepsScored(w, s, items, n - 1, user, attr, faults);
      if items[n - 1].Some? {
        SaveKeepsScored(w, AfterItems(w, s, items, n - 1, user, attr, faults), items[n - 1].value, user, attr(n - 1));
      }
    }
  }

  lemma SameSize<K, V>(a: map<K, V>, b: map<K, V>)
    requires b.Keys == a.Keys
    ensures |b| == |a|
  {
    assert |a| == |a.Keys| && |b| == |b.Keys|;
  }

  lemma SizeAfter<V>(a: map<string, V>, b: map<string, V>, k: string, collides: bool)
    requires b.Keys == a.Keys + if collides && k !in a then {} else {k}
    ensures |b| == |a| + if k in a || collides then 0 else 1
  {
    if k in a {
      assert b.Keys == a.Keys;
      SameSize(a, b);
    } else if !collides {
      GrownBy(a, b, k);
    } else {
      SameSize(a, b);
    }
  }

  function RescoredAt(w: Weights, leads: map<string, Lead>, e: string): map<string, Lead>
    requires e in leads
  {
    leads[e := leads[e].(score := ScoreOf(w, e, leads[e].fields, leads[e].band, leads[e].channelTag))]
  }

  /** Every lead outside left has its new score; those in left are as before. */
  ghost predicate RescoredBut(w: Weights, before: map<string, Lead>, now: map<string, Lead>, left: set<string>)
    requires now.Keys == before.Keys
  {
    && (forall e :: e in left && e in before ==> now[e] == before[e])
    && (forall e :: e in before && e !in left ==> now[e] == RescoredAt(w, before, e)[e])
  }

  lemma RescoredNext(w: Weights, before: map<string, Lead>, now: map<string, Lead>, left: set<string>, e: string)
    requires now.Keys == before.Keys && e in left && left <= before.Keys
    requires RescoredBut(w, before, now, left)
    ensures RescoredBut(w, before, RescoredAt(w, now, e), left - {e})
  {
  }

  lemma RescoredAll(w: Weights, s: Store, now: map<string, Lead>)
    requires now.Keys == s.leads.Keys && RescoredBut(w, s.leads, now, {})
    ensures s.(leads := now) == Rescored(w, s)
    ensures Scored(w, s.(leads := now))
  {
    assert now == Rescored(w, s).leads;
  }

  lemma VisitedOnce(i: nat)
    requires i < |ENRICHABLE|
    ensures ENRICHABLE[i] in ALL_FIELDS
    ensures forall j :: 0 <= j < |ENRICHABLE| && ENRICHABLE[j] == ENRICHABLE[i] ==> j == i
  {
  }

  lemma AllVisited(f: Field)
    ensures exists j :: 0 <= j < |ENRICHABLE| && ENRICHABLE[j] == f
  {
    var j := match f case PersonName => 0 case Designation => 1 case Department => 2 case SourceTitle => 3
                     case ContextSnippet => 4 case Phone => 5 case EntityKind => 6;
    assert ENRICHABLE[j] == f;
  }

  /** The enrich loop: visits the fields in order and fills the blank ones. */
  method FillBlanks(stored: Fields, candidate: Fields) returns (fields: Fields, changed: bool)
    ensures fields == Filled(stored, candidate)
    ensures changed <==> fields != stored
    ensures forall f :: f in ALL_FIELDS ==>
              fields[f] == if stored[f] in {None, Some("")} && candidate[f] !in {None, Some("")} then candidate[f] else stored[f]
  {
    fields, changed := stored, false;
    var i := 0;
    while i < |ENRICHABLE|
      invariant 0 <= i <= |ENRICHABLE|
      invariant forall j :: 0 <= j < i ==> fields[ENRICHABLE[j]] == Filled(stored, candidate)[ENRICHABLE[j]]
      invariant forall j :: i <= j < |ENRICHABLE| ==> fields[ENRICHABLE[j]] == stored[ENRICHABLE[j]]
      invariant changed <==> exists j :: 0 <= j < i && fields[ENRICHABLE[j]] != stored[ENRICHABLE[j]]
    {
      var field := ENRICHABLE[i];
      VisitedOnce(i);
      if Truthy(candidate[field]) && !Truthy(fields[field]) {
        fields := fields[field := candidate[field]];
        changed := true;
        assert fields[ENRICHABLE[i]] != stored[ENRICHABLE[i]];
      }
      i := i + 1;
    }
    forall f | f in ALL_FIELDS ensures exists j :: 0 <= j < |ENRICHABLE| && ENRICHABLE[j] == f {
      AllVisited(f);
    }
  }

  class LeadDb {
    const w: Weights
    var leads: map<string, Lead>
    var occurrences: map<(int, int), Occurrence>
    var nextId: int

    constructor (w: Weights, s: Store)
      ensures this.w == w && View() == s
    {
      this.w := w;
      leads, occurrences, nextId := s.leads, s.occurrences, s.nextId;
    }

    function View(): Store
      reads this
    {
      Store(leads, occurrences, nextId)
    }

    /** Get-or-create: the first capture of a lead by a job is the one recorded. */
    method RecordOccurrence(leadId: int, jobId: int, sourceUrl: string, user: Option<int>)
      modifies `occurrences
      ensures View() == Recorded(old(View()), leadId, jobId, Occurrence(sourceUrl, user))
      ensures (leadId, jobId) in old(occurrences) ==> occurrences == old(occurrences)
      ensures (leadId, jobId) !in old(occurrences) ==> occurrences == old(occurrences)[(leadId, jobId) := Occurrence(sourceUrl, user)]
    {
      if (leadId, jobId) !in occurrences {
        occurrences := occurrences[(leadId, jobId) := Occurrence(sourceUrl, user)];
      }
    }

    /** Fills the blank fields of an existing lead and upgrades its band; rescored only when something changed. */
    method EnrichLead(email: string, p: Capture)
      requires email in leads
      modifies `leads
      ensures View() == old(View()).(leads := old(leads)[email := Enriched(w, email, old(leads)[email], p)])
    {
      var lead := leads[email];
      var fields, changed := FillBlanks(lead.fields, p.fields);
      var band, provenance := lead.band, lead.provenance;
      if Truthy(p.band) && Rank(p.band) > Rank(lead.band) {
        band := p.band;
        if Truthy(p.provenance) {
          provenance := p.provenance;
        }
        changed := true;
      }
      var score := lead.score;
      if changed {
        score := ComputeLeadScore(w, email, fields, band, lead.channelTag);
      }
      leads := leads[email := lead.(fields := fields, band := band, provenance := provenance, score := score)];
    }

    /** One capture, which may meet a fault. */
    method SaveLead(p: Capture, user: Option<int>, attr: Attribution, fault: Fault) returns (answer: Answer)
      modifies this
      ensures View() == Attempted(w, old(View()), p, user, attr, fault)
      ensures answer.Accepted? <==> Truthy(p.email) && OutcomeOf(old(View()), p, fault).Stored?
      ensures answer.Accepted? <==>
                p.email !in {None, Some("")} && (fault.NoFault? || (fault.Collides? && Lower(p.email.value) in old(leads)))
      ensures answer.Raised? <==> Truthy(p.email) && (fault.FailsEarly? || fault.FailsLate?)
    {
      if !Truthy(p.email) {
        return Rejected;
      }
      if fault.FailsEarly? {
        return Raised;
      }
      var email := Lower(p.email.value);
      if email in leads {
        EnrichLead(email, p);
      } else {
        var fields := p.fields;
        if attr.snapshot.Some? && p.urlDepartment && Truthy(attr.title) {
          fields := fields[Department := attr.title];
        }
        var score := ComputeLeadScore(w, email, fields, p.band, p.channelTag);
        if fault.Collides? {
          return Rejected;
        }
        leads := leads[email := Lead(nextId, p.jobId, attr.snapshot, fields, p.sourceUrl, None, p.channelTag, p.band,
                                     p.provenance, score, p.depth)];
        nextId := nextId + 1;
      }
      if fault.FailsLate? {
        return Raised;
      }
      RecordOccurrence(leads[email].id, p.jobId, p.sourceUrl, user);
      answer := Accepted;
    }

    /** Each item on its own: one that is malformed or raises is reported as rejected and the others go through. */
    method BulkSaveLeads(items: seq<Option<Capture>>, user: Option<int>, attr: int -> Attribution, faults: int -> Fault)
      returns (results: seq<bool>)
      modifies this
      ensures |results| == |items|
      ensures forall i :: 0 <= i < |items| ==> (results[i] <==> ItemStored(w, old(View()), items, i, user, attr, faults))
      ensures View() == AfterItems(w, old(View()), items, |items|, user, attr, faults)
    {
      results := [];
      ghost var before := View();
      var i := 0;
      while i < |items|
        invariant 0 <= i <= |items| && |results| == i
        invariant forall j :: 0 <= j < i ==> (results[j] <==> ItemStored(w, before, items, j, user, attr, faults))
        invariant View() == AfterItems(w, before, items, i, user, attr, faults)
      {
        var ok := false;
        if items[i].Some? {
          var answer := SaveLead(items[i].value, user, attr(i), faults(i));
          ok := answer.Accepted?;
        }
        results := results + [ok];
        i := i + 1;
      }
    }

    /** One row of a manual upload; says whether it created a lead, or updated an existing manual one. */
    method UpsertManualLead(row: ManualRow, job: int, user: Option<int>, collides: bool) returns (created: bool, updated: bool)
      modifies this
      ensures created == (row.email !in old(leads) && !collides)
      ensures updated == (row.email in old(leads) && old(leads)[row.email].channelTag == Some("manual"))
      ensures leads.Keys == old(leads).Keys + if collides && row.email !in old(leads) then {} else {row.email}
      ensures View() == if collides && row.email !in old(leads) then old(View()) else Uploaded(w, old(View()), row, job, user)
    {
      created, updated := false, false;
      if row.email in leads {
        var lead := leads[row.email];
        if lead.channelTag == Some("manual") {
          var fields := lead.fields[PersonName := Or(row.name, lead.fields[PersonName])]
                                   [Designation := Or(row.designation, lead.fields[Designation])]
                                   [Department := Or(row.department, lead.fields[Department])]
                                   [Phone := Or(row.phone, lead.fields[Phone])];
          var score := ComputeLeadScore(w, row.email, fields, lead.band, lead.channelTag);
          leads := leads[row.email := lead.(fields := fields, score := score)];
          updated := true;
        }
      } else {
        var score := ComputeLeadScore(w, row.email, RowFields(row), None, Some("manual"));
        if collides {
          return;
        }
        leads := leads[row.email := Lead(nextId, job, None, RowFields(row), "manual-csv-upload", None, Some("manual"),
                                         None, None, score, 0)];
        nextId := nextId + 1;
        created := true;
      }
      RecordOccurrence(leads[row.email].id, job, "manual-csv-upload", user);
    }

    /** The next row of a batch. */
    method UpsertNext(ghost before: Store, rows: seq<ManualRow>, i: nat, job: int, user: Option<int>, collides: int -> bool)
      returns (created: bool, updated: bool)
      requires i < |rows| && Reached(w, before, View(), rows, i, job, user, collides)
      modifies this
      ensures Reached(w, before, View(), rows, i + 1, job, user, collides)
      ensures !(created && updated) && |leads| == |old(leads)| + if created then 1 else 0
      ensures SkippedRows(before.leads.Keys, leads, rows, i + 1, collides)
              == SkippedRows(before.leads.Keys, old(leads), rows, i, collides) + if created || updated then [] else [rows[i]]
    {
      ghost var now := View();
      created, updated := UpsertManualLead(rows[i], job, user, collides(i));
      SizeAfter(now.leads, leads, rows[i].email, collides(i));
      RowDone(w, before, now, View(), rows, i, job, user, collides);
    }

    /**
     Every row is imported, updated or skipped; the table grows by the imported ones and the skipped
     ones are exactly those that collided or whose lead was crawled.
     */
    method BulkUpsertManualLeads(job: int, rows: seq<ManualRow>, user: Option<int>, collides: int -> bool)
      returns (imported: nat, updated: nat, skipped: seq<ManualRow>)
      modifies this
      ensures imported + updated + |skipped| == |rows|
      ensures |leads| == |old(leads)| + imported
      ensures skipped == SkippedRows(old(leads).Keys, leads, rows, |rows|, collides)
      ensures View() == ApplyAll(w, old(View()), Uploads(Applied(old(leads).Keys, rows, |rows|, collides), job, user))
    {
      imported, updated, skipped := 0, 0, [];
      ghost var before := View();
      StartReached(w, before, rows, job, user, collides);
      var i := 0;
      while i < |rows|
        invariant 0 <= i <= |rows| && imported + updated + |skipped| == i
        invariant |leads| == |before.leads| + imported
        invariant skipped == SkippedRows(before.leads.Keys, leads, rows, i, collides)
        invariant Reached(w, before, View(), rows, i, job, user, collides)
      {
        var created, changed := UpsertNext(before, rows, i, job, user, collides);
        if created {
          imported := imported + 1;
        } else if changed {
          updated := updated + 1;
        } else {
          skipped := skipped + [rows[i]];
        }
        i := i + 1;
      }
    }

    method RescoreLead(e: string)
      requires e in leads
      modifies `leads
      ensures leads == RescoredAt(w, old(leads), e)
    {
      var lead := leads[e];
      var score := ComputeLeadScore(w, e, lead.fields, lead.band, lead.channelTag);
      leads := leads[e := lead.(score := score)];
    }

    /** Recomputes every score from the current weights. */
    method RecomputeLeadScores()
      modifies `leads
      ensures View() == Rescored(w, old(View()))
      ensures Scored(w, View())
    {
      ghost var before := View();
      var left := leads.Keys;
      while left != {}
        invariant left <= leads.Keys == before.leads.Keys
        invariant RescoredBut(w, before.leads, leads, left)
        decreases left
      {
        var e :| e in left;
        RescoredNext(w, before.leads, leads, left, e);
        RescoreLead(e);
        left := left - {e};
      }
      RescoredAll(w, before, leads);
    }

    /** Edits the allowed columns of one lead; "not manual" protects the state of a crawled lead. */
    method UpdateLead(email: string, edit: Edit) returns (found: bool, notManual: bool)
      modifies `leads
      ensures View() == Edited(w, old(View()), email, edit)
      ensures found ==> email in old(leads) && leads.Keys == old(leads).Keys && Scored(w, View().(leads := map[email := leads[email]]))
      ensures !found ==> View() == old(View())
    {
      found, notManual := false, false;
      if edit == Edit(None, None, None, None) || email !in leads {
        return;
      }
      var lead := leads[email];
      if edit.manualState.Some? && lead.channelTag != Some("manual") {
        notManual := true;
        return;
      }
      var fields := lead.fields[PersonName := Over(edit.personName, lead.fields[PersonName])]
                               [Designation := Over(edit.designation, lead.fields[Designation])]
                               [Department := Over(edit.department, lead.fields[Department])];
      var score := ComputeLeadScore(w, email, fields, lead.band, lead.channelTag);
      leads := leads[email := lead.(fields := fields, manualState := Over(edit.manualState, lead.manualState), score := score)];
      found := true;
    }
  }
}
