/**
 The shared lead store: enrich-on-conflict capture, manual upload, edits and scores.
 E-mail addresses are unique and key the table; each method is one committed session.
 */
module LeadStore {
  import opened Prelude

  /** A nullable text column. */
  type Text = Option<string>

  datatype Field = PersonName | Designation | Department | SourceTitle | ContextSnippet | Phone | EntityKind

  /** The fields a re-capture may fill in, in the order the code visits them. */
  const ENRICHABLE: seq<Field> := [PersonName, Designation, Department, SourceTitle, ContextSnippet, Phone, EntityKind]

  const ALL_FIELDS: set<Field> := {PersonName, Designation, Department, SourceTitle, ContextSnippet, Phone, EntityKind}

  type Fields = m: map<Field, Text> | m.Keys == ALL_FIELDS
    witness map[PersonName := None, Designation := None, Department := None, SourceTitle := None,
                ContextSnippet := None, Phone := None, EntityKind := None]

  /** The column f of a row. */
  function At(m: Fields, f: Field): Text {
    EveryField(f);
    m[f]
  }

  lemma EveryField(f: Field)
    ensures f in ALL_FIELDS
  {
  }

  datatype Lead = Lead(
    id: int,
    jobId: int,
    snapshot: Option<int>,
    fields: Fields,
    sourceUrl: string,
    manualState: Text,
    channelTag: Text,
    band: Text,
    provenance: Text,
    score: int,
    depth: int)

  /** Who captured a lead for a job, and from where. */
  datatype Occurrence = Occurrence(sourceUrl: string, capturedBy: Option<int>)

  /** Leads by e-mail, occurrences by (lead id, job id). */
  datatype Store = Store(leads: map<string, Lead>, occurrences: map<(int, int), Occurrence>, nextId: int)

  datatype Weights = Weights(emailHigh: int, emailLow: int, personName: int, designation: int, phone: int)

  /** One captured lead as the agent delivers it; urlDepartment says the department came from the host name only. */
  datatype Capture = Capture(
    jobId: int,
    email: Text,
    fields: Fields,
    sourceUrl: string,
    channelTag: Text,
    band: Text,
    provenance: Text,
    urlDepartment: bool,
    depth: int)

  /** What domain resolution found for a capture: the snapshot to attach, if any, and its title. */
  datatype Attribution = Attribution(snapshot: Option<int>, title: Text)

  // ---- text ----

  predicate Truthy(t: Text) {
    t.Some? && t.value != ""
  }

  predicate IsSpace(c: char) {
    c in {' ', '\t', '\n', '\r', '\U{0b}', '\U{0c}', '\U{1c}', '\U{1d}', '\U{1e}', '\U{1f}'}
  }

  /** Something is left after stripping. */
  predicate HasText(t: Text) {
    t.Some? && exists i :: 0 <= i < |t.value| && !IsSpace(t.value[i])
  }

  function LowerChar(c: char): char {
    if 'A' <= c <= 'Z' then (c as int + 32) as char else c
  }

  function Lower(s: string): (low: string)
    ensures |low| == |s|
  {
    seq(|s|, i requires 0 <= i < |s| => LowerChar(s[i]))
  }

  function StripLeft(s: string): string {
    if s != "" && IsSpace(s[0]) then StripLeft(s[1..]) else s
  }

  function StripRight(s: string): string {
    if s != "" && IsSpace(s[|s| - 1]) then StripRight(s[..|s| - 1]) else s
  }

  function Strip(s: string): string {
    StripRight(StripLeft(s))
  }

  /** Capital letters become small ones and nothing else changes. */
  lemma LowerIs(s: string, i: nat)
    requires i < |s|
    ensures !('A' <= Lower(s)[i] <= 'Z')
    ensures if 'A' <= s[i] <= 'Z' then Lower(s)[i] as int == s[i] as int + 32 else Lower(s)[i] == s[i]
  {
  }

  /** The texts differ at most in the case of letters. */
  predicate SameButCase(a: string, b: string) {
    && |a| == |b|
    && forall i :: 0 <= i < |a| ==>
         || a[i] == b[i]
         || ('A' <= a[i] <= 'Z' && b[i] as int == a[i] as int + 32)
         || ('A' <= b[i] <= 'Z' && a[i] as int == b[i] as int + 32)
  }

  lemma SameLowerIff(a: string, b: string)
    ensures Lower(a) == Lower(b) <==> SameButCase(a, b)
  {
    if Lower(a) == Lower(b) {
      forall i | 0 <= i < |a|
        ensures a[i] == b[i] || ('A' <= a[i] <= 'Z' && b[i] as int == a[i] as int + 32) || ('A' <= b[i] <= 'Z' && a[i] as int == b[i] as int + 32)
      {
        assert Lower(a)[i] == Lower(b)[i];
        LowerIs(a, i);
        LowerIs(b, i);
      }
    }
    if SameButCase(a, b) {
      forall i | 0 <= i < |a| ensures Lower(a)[i] == Lower(b)[i] {
        LowerIs(a, i);
        LowerIs(b, i);
      }
    }
  }

  /** Blank, tab to carriage return, and the four information separators. */
  lemma SpaceIs(c: char)
    ensures IsSpace(c) <==> c as int == 32 || 9 <= c as int <= 13 || 28 <= c as int <= 31
  {
  }

  predicate AllSpace(s: string) {
    forall i :: 0 <= i < |s| ==> s[i] as int == 32 || 9 <= s[i] as int <= 13 || 28 <= s[i] as int <= 31
  }

  lemma {:induction false} StripLeftIs(s: string) returns (cut: nat)
    ensures cut <= |s| && StripLeft(s) == s[cut..]
    ensures forall i :: 0 <= i < cut ==> IsSpace(s[i])
    ensures cut < |s| ==> !IsSpace(s[cut])
  {
    if s == "" || !IsSpace(s[0]) {
      cut := 0;
    } else {
      var tail := s[1..];
      var rest := StripLeftIs(tail);
      cut := rest + 1;
      assert forall i :: 0 <= i < |tail| ==> tail[i] == s[i + 1];
      assert tail[rest..] == s[cut..];
      forall i | 0 <= i < cut ensures IsSpace(s[i]) {
        if i > 0 {
          assert IsSpace(tail[i - 1]);
        }
      }
    }
  }

  lemma {:induction false} StripRightIs(s: string) returns (end: nat)
    ensures end <= |s| && StripRight(s) == s[..end]
    ensures forall i :: end <= i < |s| ==> IsSpace(s[i])
    ensures end > 0 ==> !IsSpace(s[end - 1])
  {
    if s == "" || !IsSpace(s[|s| - 1]) {
      end := |s|;
    } else {
      var init := s[..|s| - 1];
      end := StripRightIs(init);
      assert forall i :: 0 <= i < |init| ==> init[i] == s[i];
      assert init[..end] == s[..end];
    }
  }

  lemma NotAllSpace(c: char)
    requires !IsSpace(c)
    ensures !AllSpace([c])
  {
    assert [c][0] == c;
  }

  /** Stripping cuts white space off both ends, all of it and nothing else. */
  lemma StripIs(s: string) returns (start: nat, end: nat)
    ensures start <= end <= |s| && Strip(s) == s[start..end] && AllSpace(s[..start]) && AllSpace(s[end..])
    ensures start < end ==> !AllSpace([s[start]]) && !AllSpace([s[end - 1]])
    ensures forall i :: 0 <= i < |s| && !(start <= i < end) ==> IsSpace(s[i])
  {
    start := StripLeftIs(s);
    var left := s[start..];
    var kept := StripRightIs(left);
    end := start + kept;
    assert left[..kept] == s[start..end];
    forall i | 0 <= i < |s| && !(start <= i < end) ensures IsSpace(s[i]) {
      if end <= i {
        assert left[i - start] == s[i];
      }
    }
    if start < end {
      assert left[kept - 1] == s[end - 1];
      NotAllSpace(s[start]);
      NotAllSpace(s[end - 1]);
    }
    assert forall i :: 0 <= i < start ==> s[..start][i] == s[i];
    assert forall i :: 0 <= i < |s| - end ==> s[end..][i] == s[end + i];
  }

  /** A text has text exactly when something is left of it, which is when it is not all white space. */
  lemma HasTextIff(s: string)
    ensures HasText(Some(s)) <==> Strip(s) != ""
    ensures HasText(Some(s)) <==> !AllSpace(s)
  {
    var start, end := StripIs(s);
    assert |Strip(s)| == end - start;
    forall i | 0 <= i < |s| ensures IsSpace(s[i]) <==> s[i] as int == 32 || 9 <= s[i] as int <= 13 || 28 <= s[i] as int <= 31 {
      SpaceIs(s[i]);
    }
    if start < end {
      assert [s[start]][0] == s[start];
      SpaceIs(s[start]);
      assert !IsSpace(s[start]) && HasText(Some(s));
    } else {
      forall i | 0 <= i < |s| ensures IsSpace(s[i]) {}
      assert !HasText(Some(s)) && AllSpace(s);
    }
  }

  // ---- scores ----

  function Slice(present: bool, weight: int): int {
    if present then weight else 0
  }

  function ScoreOf(w: Weights, email: string, fields: Fields, band: Text, channelTag: Text): int {
    if channelTag == Some("manual") then 0
    else
      Slice(HasText(Some(email)), if band == Some("HIGH") then w.emailHigh else w.emailLow)
      + Slice(HasText(fields[PersonName]), w.personName)
      + Slice(HasText(fields[Designation]), w.designation)
      + Slice(HasText(fields[Phone]), w.phone)
  }

  method ComputeLeadScore(w: Weights, email: string, fields: Fields, band: Text, channelTag: Text) returns (score: int)
    ensures score == ScoreOf(w, email, fields, band, channelTag)
  {
    if channelTag == Some("manual") {
      return 0;
    }
    score := 0;
    if HasText(Some(email)) {
      score := score + if band == Some("HIGH") then w.emailHigh else w.emailLow;
    }
    if HasText(fields[PersonName]) {
      score := score + w.personName;
    }
    if HasText(fields[Designation]) {
      score := score + w.designation;
    }
    if HasText(fields[Phone]) {
      score := score + w.phone;
    }
  }

  /** What text in a field is worth. */
  function Worth(w: Weights, f: Field): int {
    match f
    case PersonName => w.personName
    case Designation => w.designation
    case Phone => w.phone
    case _ => 0
  }

  /**
   A manual lead scores nothing. Any other lead scores its address, more when the band is HIGH, and text in
   a field adds what the field is worth.
   */
  lemma ScoreAddsUp(w: Weights, email: string, fields: Fields, band: Text, channelTag: Text, f: Field, text: string)
    requires !AllSpace(email) && !AllSpace(text)
    ensures channelTag == Some("manual") ==> ScoreOf(w, email, fields, band, channelTag) == 0
    ensures f in ALL_FIELDS && channelTag != Some("manual") ==>
              && ScoreOf(w, email, fields[f := Some(text)], band, channelTag)
                 == ScoreOf(w, email, fields[f := None], band, channelTag) + Worth(w, f)
    ensures channelTag != Some("manual") && (forall g :: g in ALL_FIELDS ==> fields[g].None? || AllSpace(fields[g].value)) ==>
              ScoreOf(w, email, fields, band, channelTag) == if band == Some("HIGH") then w.emailHigh else w.emailLow
  {
    HasTextIff(email);
    HasTextIff(text);
    forall g | g in ALL_FIELDS && fields[g].Some? ensures HasText(fields[g]) <==> !AllSpace(fields[g].value) {
      HasTextIff(fields[g].value);
    }
    EveryField(f);
  }

  function Rank(band: Text): int {
    if band == Some("LOW") then 0 else if band == Some("HIGH") then 1 else -1
  }

  // ---- capturing a lead ----

  /** Fills blanks only. */
  function Filled(old_: Fields, candidate: Fields): Fields {
    map f | f in ALL_FIELDS :: if Truthy(candidate[f]) && !Truthy(old_[f]) then candidate[f] else old_[f]
  }

  predicate Upgrades(lead: Lead, p: Capture) {
    Truthy(p.band) && Rank(p.band) > Rank(lead.band)
  }

  function Enriched(w: Weights, email: string, lead: Lead, p: Capture): Lead {
    var fields := Filled(lead.fields, p.fields);
    var up := Upgrades(lead, p);
    var band := if up then p.band else lead.band;
    lead.(fields := fields,
          band := band,
          provenance := if up && Truthy(p.provenance) then p.provenance else lead.provenance,
          score := if fields != lead.fields || up then ScoreOf(w, email, fields, band, lead.channelTag) else lead.score)
  }

  function Recorded(s: Store, leadId: int, jobId: int, o: Occurrence): Store {
    if (leadId, jobId) in s.occurrences then s else s.(occurrences := s.occurrences[(leadId, jobId) := o])
  }

  function InitialFields(p: Capture, attr: Attribution): Fields {
    if attr.snapshot.Some? && p.urlDepartment && Truthy(attr.title) then p.fields[Department := attr.title] else p.fields
  }

  function Inserted(w: Weights, s: Store, email: string, p: Capture, attr: Attribution): Store {
    var fields := InitialFields(p, attr);
    s.(leads := s.leads[email := Lead(s.nextId, p.jobId, attr.snapshot, fields, p.sourceUrl, None, p.channelTag, p.band,
                                      p.provenance, ScoreOf(w, email, fields, p.band, p.channelTag), p.depth)],
       nextId := s.nextId + 1)
  }

  /** The lead's part of a capture: nothing without an e-mail, otherwise enrich or insert. */
  function LeadSaved(w: Weights, s: Store, p: Capture, attr: Attribution): Store {
    if !Truthy(p.email) then s
    else
      var email := Lower(p.email.value);
      if email in s.leads then s.(leads := s.leads[email := Enriched(w, email, s.leads[email], p)])
      else Inserted(w, s, email, p, attr)
  }

  /** One capture: the lead, then the occurrence. */
  function Saved(w: Weights, s: Store, p: Capture, user: Option<int>, attr: Attribution): Store {
    if !Truthy(p.email) then s
    else
      var s' := LeadSaved(w, s, p, attr);
      Recorded(s', s'.leads[Lower(p.email.value)].id, p.jobId, Occurrence(p.sourceUrl, user))
  }

  // ---- manual upload, edits, recompute ----

  /** One row of an uploaded sheet. */
  datatype ManualRow = ManualRow(email: string, name: Text, designation: Text, department: Text, phone: Text)

  function Or(a: Text, b: Text): Text {
    if Truthy(a) then a else b
  }

  function RowFields(row: ManualRow): Fields {
    map[PersonName := row.name, Designation := row.designation, Department := row.department, SourceTitle := None,
        ContextSnippet := None, Phone := row.phone, EntityKind := None]
  }

  function Uploaded(w: Weights, s: Store, row: ManualRow, job: int, user: Option<int>): Store {
    var s' :=
      if row.email !in s.leads then
        s.(leads := s.leads[row.email := Lead(s.nextId, job, None, RowFields(row), "manual-csv-upload", None, Some("manual"),
                                              None, None, ScoreOf(w, row.email, RowFields(row), None, Some("manual")), 0)],
           nextId := s.nextId + 1)
      else
        var lead := s.leads[row.email];
        if lead.channelTag != Some("manual") then s
        else
          var fields := lead.fields[PersonName := Or(row.name, lead.fields[PersonName])]
                                   [Designation := Or(row.designation, lead.fields[Designation])]
                                   [Department := Or(row.department, lead.fields[Department])]
                                   [Phone := Or(row.phone, lead.fields[Phone])];
          s.(leads := s.leads[row.email := lead.(fields := fields,
                                                 score := ScoreOf(w, row.email, fields, lead.band, lead.channelTag))]);
    Recorded(s', s'.leads[row.email].id, job, Occurrence("manual-csv-upload", user))
  }

  /** The columns an edit may set; None leaves a column alone, a blank text clears it. */
  datatype Edit = Edit(personName: Text, designation: Text, department: Text, manualState: Text)

  function Cleaned(t: Text): Text
    requires t.Some?
  {
    if Strip(t.value) == "" then None else Some(Strip(t.value))
  }

  function Over(t: Text, old_: Text): Text {
    if t.Some? then Cleaned(t) else old_
  }

  function Edited(w: Weights, s: Store, email: string, edit: Edit): Store {
    if edit == Edit(None, None, None, None) || email !in s.leads
       || (edit.manualState.Some? && s.leads[email].channelTag != Some("manual")) then s
    else
      var lead := s.leads[email];
      var fields := lead.fields[PersonName := Over(edit.personName, lead.fields[PersonName])]
                               [Designation := Over(edit.designation, lead.fields[Designation])]
                               [Department := Over(edit.department, lead.fields[Department])];
      s.(leads := s.leads[email := lead.(fields := fields,
                                         manualState := Over(edit.manualState, lead.manualState),
                                         score := ScoreOf(w, email, fields, lead.band, lead.channelTag))])
  }

  function Rescored(w: Weights, s: Store): Store {
    s.(leads := map e | e in s.leads :: s.leads[e].(score := ScoreOf(w, e, s.leads[e].fields, s.leads[e].band, s.leads[e].channelTag)))
  }

  // ---- what captures, uploads and edits write ----

  predicate Blank(t: Text) {
    t.None? || t.value == ""
  }

  /** A field keeps its text if it has one and takes the captured one otherwise. */
  lemma FilledIs(stored: Fields, candidate: Fields, f: Field)
    requires f in ALL_FIELDS
    ensures Filled(stored, candidate)[f] == if Blank(stored[f]) && !Blank(candidate[f]) then candidate[f] else stored[f]
  {
  }

  /** HIGH once any capture was HIGH, else LOW once any was LOW; an upgrade brings its provenance along. */
  lemma BandAfterCapture(w: Weights, email: string, lead: Lead, p: Capture)
    ensures var after := Enriched(w, email, lead, p);
            && (after.band == Some("HIGH") <==> lead.band == Some("HIGH") || p.band == Some("HIGH"))
            && (after.band == Some("LOW") <==>
                  lead.band != Some("HIGH") && p.band != Some("HIGH") && (lead.band == Some("LOW") || p.band == Some("LOW")))
            && (after.band != lead.band && !Blank(p.provenance) ==> after.provenance == p.provenance)
            && (after.band == lead.band || Blank(p.provenance) ==> after.provenance == lead.provenance)
            && after.(fields := lead.fields, band := lead.band, provenance := lead.provenance, score := lead.score) == lead
  {
  }

  /** The lead of a new address is what was captured, with the title for a department that came from the host name only. */
  lemma InsertedAsCaptured(w: Weights, s: Store, p: Capture, user: Option<int>, attr: Attribution)
    requires !Blank(p.email) && Lower(p.email.value) !in s.leads
    ensures var s', email := Saved(w, s, p, user, attr), Lower(p.email.value);
            && s'.leads.Keys == s.leads.Keys + {email} && s'.nextId == s.nextId + 1
            && (forall e :: e in s.leads ==> s'.leads[e] == s.leads[e])
            && var lead := s'.leads[email];
            && lead.id == s.nextId && lead.jobId == p.jobId && lead.snapshot == attr.snapshot && lead.sourceUrl == p.sourceUrl
            && lead.manualState == None && lead.channelTag == p.channelTag && lead.band == p.band && lead.provenance == p.provenance
            && lead.depth == p.depth
            && (forall f :: f in ALL_FIELDS && f != Department ==> lead.fields[f] == p.fields[f])
            && lead.fields[Department] == (if attr.snapshot.Some? && p.urlDepartment && !Blank(attr.title) then attr.title
                                           else p.fields[Department])
            && ((s.nextId, p.jobId) !in s.occurrences ==>
                  s'.occurrences == s.occurrences[(s.nextId, p.jobId) := Occurrence(p.sourceUrl, user)])
  {
  }

  /** A capture of a known address touches that lead only, and two captures whose addresses differ in letter case meet in one lead. */
  lemma CaseVariantsMeet(w: Weights, s: Store, p: Capture, q: Capture, user: Option<int>, attr: Attribution)
    requires !Blank(p.email) && !Blank(q.email) && SameButCase(p.email.value, q.email.value)
    ensures var first := Saved(w, s, p, user, attr); var second := Saved(w, first, q, user, attr);
            && second.leads.Keys == first.leads.Keys && second.nextId == first.nextId
            && Lower(p.email.value) == Lower(q.email.value) && Lower(p.email.value) in first.leads
            && second.leads[Lower(p.email.value)].id == first.leads[Lower(p.email.value)].id
  {
    SameLowerIff(p.email.value, q.email.value);
  }

  function Column(row: ManualRow, f: Field): Text {
    match f
    case PersonName => row.name
    case Designation => row.designation
    case Department => row.department
    case Phone => row.phone
    case _ => None
  }

  /** A sheet's row for a new address makes a manual lead of its four columns. */
  lemma UploadCreates(w: Weights, s: Store, row: ManualRow, job: int, user: Option<int>)
    requires row.email !in s.leads
    ensures var s' := Uploaded(w, s, row, job, user);
            && s'.leads.Keys == s.leads.Keys + {row.email} && s'.nextId == s.nextId + 1
            && (forall e :: e in s.leads ==> s'.leads[e] == s.leads[e])
            && var lead := s'.leads[row.email];
            && lead.id == s.nextId && lead.jobId == job && lead.channelTag == Some("manual")
            && lead.sourceUrl == "manual-csv-upload" && lead.depth == 0 && lead.score == 0 && lead.band == None
            && (forall f :: f in ALL_FIELDS ==> lead.fields[f] == Column(row, f))
            && (s.nextId, job) in s'.occurrences
            && ((s.nextId, job) !in s.occurrences ==>
                  s'.occurrences == s.occurrences[(s.nextId, job) := Occurrence("manual-csv-upload", user)])
  {
  }

  /** On a manual lead the columns that are filled in override; the others, and every other lead, stay. */
  lemma UploadOverrides(w: Weights, s: Store, row: ManualRow, job: int, user: Option<int>)
    requires row.email in s.leads && s.leads[row.email].channelTag == Some("manual")
    ensures var s' := Uploaded(w, s, row, job, user); var before := s.leads[row.email];
            && s'.leads.Keys == s.leads.Keys && (forall e :: e in s.leads && e != row.email ==> s'.leads[e] == s.leads[e])
            && var after := s'.leads[row.email];
            && after.(fields := before.fields, score := before.score) == before && after.score == 0
            && (forall f :: f in ALL_FIELDS ==> after.fields[f] == if Blank(Column(row, f)) then before.fields[f] else Column(row, f))
            && (before.id, job) in s'.occurrences
  {
    var before, after := s.leads[row.email], Uploaded(w, s, row, job, user).leads[row.email];
    forall f | f in ALL_FIELDS ensures after.fields[f] == if Blank(Column(row, f)) then before.fields[f] else Column(row, f) {
      EveryField(f);
    }
  }

  /** A crawled lead stays as it is; the upload is on record all the same. */
  lemma UploadLeavesCrawled(w: Weights, s: Store, row: ManualRow, job: int, user: Option<int>)
    requires row.email in s.leads && s.leads[row.email].channelTag != Some("manual")
    ensures var s' := Uploaded(w, s, row, job, user);
            && s'.leads == s.leads && s'.nextId == s.nextId && (s.leads[row.email].id, job) in s'.occurrences
            && ((s.leads[row.email].id, job) !in s.occurrences ==>
                  s'.occurrences == s.occurrences[(s.leads[row.email].id, job) := Occurrence("manual-csv-upload", user)])
  {
  }

  /** A text set by an edit: stripped, and cleared when nothing is left. */
  predicate SetTo(t: Text, before: Text, after: Text) {
    if t.None? then after == before
    else if AllSpace(t.value) then after == None
    else after == Some(Strip(t.value))
  }

  /** An edit writes name, designation, department and state, each column it names and no other. */
  lemma EditedColumns(w: Weights, s: Store, email: string, edit: Edit)
    requires email in s.leads && edit != Edit(None, None, None, None)
    requires edit.manualState.Some? ==> s.leads[email].channelTag == Some("manual")
    ensures var before, after := s.leads[email], Edited(w, s, email, edit).leads[email];
            && SetTo(edit.personName, before.fields[PersonName], after.fields[PersonName])
            && SetTo(edit.designation, before.fields[Designation], after.fields[Designation])
            && SetTo(edit.department, before.fields[Department], after.fields[Department])
            && SetTo(edit.manualState, before.manualState, after.manualState)
            && after.fields[SourceTitle] == before.fields[SourceTitle] && after.fields[ContextSnippet] == before.fields[ContextSnippet]
            && after.fields[Phone] == before.fields[Phone] && after.fields[EntityKind] == before.fields[EntityKind]
            && after.(fields := before.fields, manualState := before.manualState, score := before.score) == before
  {
    OverSets(edit.personName, s.leads[email].fields[PersonName]);
    OverSets(edit.designation, s.leads[email].fields[Designation]);
    OverSets(edit.department, s.leads[email].fields[Department]);
    OverSets(edit.manualState, s.leads[email].manualState);
  }

  lemma OverSets(t: Text, before: Text)
    ensures SetTo(t, before, Over(t, before))
  {
    if t.Some? {
      HasTextIff(t.value);
    }
  }

  /** The state of a crawled lead is not edited. */
  lemma CrawledStateIsKept(w: Weights, s: Store, email: string, edit: Edit)
    requires email in s.leads && edit.manualState.Some? && s.leads[email].channelTag != Some("manual")
    ensures Edited(w, s, email, edit) == s
  {
  }

  datatype Op =
    | SaveOp(capture: Capture, user: Option<int>, attr: Attribution)
    | LeadOnlyOp(capture: Capture, attr: Attribution)    // the lead was committed, then the save failed
    | UploadOp(row: ManualRow, job: int, user: Option<int>)
    | EditOp(email: string, edit: Edit)
    | RecomputeOp

  function Apply(w: Weights, s: Store, op: Op): Store {
    match op
    case SaveOp(p, user, attr) => Saved(w, s, p, user, attr)
    case LeadOnlyOp(p, attr) => LeadSaved(w, s, p, attr)
    case UploadOp(row, job, user) => Uploaded(w, s, row, job, user)
    case EditOp(email, edit) => Edited(w, s, email, edit)
    case RecomputeOp => Rescored(w, s)
  }

  function ApplyAll(w: Weights, s: Store, ops: seq<Op>): Store {
    if ops == [] then s else Apply(w, ApplyAll(w, s, ops[..|ops| - 1]), ops[|ops| - 1])
  }

  lemma ApplyOneMore(w: Weights, s: Store, ops: seq<Op>, op: Op)
    ensures ApplyAll(w, s, ops + [op]) == Apply(w, ApplyAll(w, s, ops), op)
  {
    assert (ops + [op])[..|ops|] == ops;
  }

  // ---- scores after every run ----

  /** Every stored score is the score of the stored row. */
  ghost predicate Scored(w: Weights, s: Store) {
    forall e :: e in s.leads ==>
      s.leads[e].score == ScoreOf(w, e, s.leads[e].fields, s.leads[e].band, s.leads[e].channelTag)
  }

  lemma SaveKeepsScored(w: Weights, s: Store, p: Capture, user: Option<int>, attr: Attribution)
    requires Scored(w, s)
    ensures Scored(w, LeadSaved(w, s, p, attr)) && Scored(w, Saved(w, s, p, user, attr))
  {
  }

  lemma UploadKeepsScored(w: Weights, s: Store, row: ManualRow, job: int, user: Option<int>)
    requires Scored(w, s)
    ensures Scored(w, Uploaded(w, s, row, job, user))
  {
  }

  lemma StepKeepsScored(w: Weights, s: Store, op: Op)
    requires Scored(w, s)
    ensures Scored(w, Apply(w, s, op))
  {
    match op
    case SaveOp(p, user, attr) => SaveKeepsScored(w, s, p, user, attr);
    case LeadOnlyOp(p, attr) => SaveKeepsScored(w, s, p, None, attr);
    case UploadOp(row, job, user) => UploadKeepsScored(w, s, row, job, user);
    case _ =>
  }

  /** Captures, uploads, edits and recomputations keep every stored score equal to the score of its row. */
  lemma {:induction false} ScoresStayTrue(w: Weights, s: Store, ops: seq<Op>)
    requires Scored(w, s)
    ensures Scored(w, ApplyAll(w, s, ops))
  {
    if ops != [] {
      ScoresStayTrue(w, s, ops[..|ops| - 1]);
      StepKeepsScored(w, ApplyAll(w, s, ops[..|ops| - 1]), ops[|ops| - 1]);
    }
  }

  predicate Percent(w: Weights) {
    && 0 <= w.emailHigh && 0 <= w.emailLow && 0 <= w.personName && 0 <= w.designation && 0 <= w.phone
    && w.emailHigh + w.personName + w.designation + w.phone <= 100
    && w.emailLow + w.personName + w.designation + w.phone <= 100
  }

  /** With weights that total at most 100, stored scores are percentages after every run. */
  lemma ScoresArePercentages(w: Weights, s: Store, ops: seq<Op>, e: string)
    requires Scored(w, s) && Percent(w) && e in ApplyAll(w, s, ops).leads
    ensures 0 <= ApplyAll(w, s, ops).leads[e].score <= 100
  {
    ScoresStayTrue(w, s, ops);
  }

  lemma FilledKeepsText(stored: Fields, candidate: Fields, f: Field)
    requires f in ALL_FIELDS && HasText(stored[f])
    ensures HasText(Filled(stored, candidate)[f])
  {
  }

  lemma EnrichNeverLowers(w: Weights, email: string, lead: Lead, p: Capture)
    requires w.emailLow <= w.emailHigh && 0 <= w.personName && 0 <= w.designation && 0 <= w.phone
    requires lead.score == ScoreOf(w, email, lead.fields, lead.band, lead.channelTag)
    ensures lead.score <= Enriched(w, email, lead, p).score
  {
    forall f | f in ALL_FIELDS && HasText(lead.fields[f]) ensures HasText(Filled(lead.fields, p.fields)[f]) {
      FilledKeepsText(lead.fields, p.fields, f);
    }
  }

  /** A capture never removes a lead and never lowers its score, when HIGH weighs at least as much as LOW. */
  lemma SaveNeverLowers(w: Weights, s: Store, p: Capture, user: Option<int>, attr: Attribution, e: string)
    requires Scored(w, s) && e in s.leads
    requires w.emailLow <= w.emailHigh && 0 <= w.personName && 0 <= w.designation && 0 <= w.phone
    ensures e in Saved(w, s, p, user, attr).leads && s.leads[e].score <= Saved(w, s, p, user, attr).leads[e].score
  {
    EnrichNeverLowers(w, e, s.leads[e], p);
    assert Saved(w, s, p, user, attr).leads == LeadSaved(w, s, p, attr).leads;
    if Truthy(p.email) && Lower(p.email.value) == e {
      assert LeadSaved(w, s, p, attr).leads[e] == Enriched(w, e, s.leads[e], p);
    } else {
      assert LeadSaved(w, s, p, attr).leads[e] == s.leads[e];
    }
  }

  // ---- absorption of replays ----

  /** Everything capture p has to say about the lead itself is already in the store. */
  ghost predicate LeadAbsorbs(s: Store, p: Capture) {
    Truthy(p.email) ==>
      var email := Lower(p.email.value);
      && email in s.leads
      && (forall f :: f in ALL_FIELDS && Truthy(p.fields[f]) ==> Truthy(s.leads[email].fields[f]))
      && !Upgrades(s.leads[email], p)
  }

  /** Everything capture p has to say is already in the store, its occurrence included. */
  ghost predicate Absorbs(s: Store, p: Capture) {
    LeadAbsorbs(s, p) && (Truthy(p.email) ==> (s.leads[Lower(p.email.value)].id, p.jobId) in s.occurrences)
  }

  lemma LeadAbsorbedIffUnchanged(w: Weights, s: Store, p: Capture, attr: Attribution)
    ensures LeadAbsorbs(s, p) <==> LeadSaved(w, s, p, attr) == s
  {
    if Truthy(p.email) {
      var email := Lower(p.email.value);
      if email in s.leads {
        var lead := s.leads[email];
        var fields := Filled(lead.fields, p.fields);
        if forall f :: f in ALL_FIELDS && Truthy(p.fields[f]) ==> Truthy(lead.fields[f]) {
          assert fields == lead.fields;
        } else {
          var f :| f in ALL_FIELDS && Truthy(p.fields[f]) && !Truthy(lead.fields[f]);
          assert fields[f] != lead.fields[f];
        }
      }
    }
  }

  /** A capture leaves the store as it is exactly when the store absorbs it, whoever sends it and whatever it resolves to. */
  lemma AbsorbedIffUnchanged(w: Weights, s: Store, p: Capture, user: Option<int>, attr: Attribution)
    ensures Absorbs(s, p) <==> Saved(w, s, p, user, attr) == s
  {
    LeadAbsorbedIffUnchanged(w, s, p, attr);
  }

  /** Right after a capture the store absorbs it; after one that failed half-way it absorbs what concerns the lead. */
  lemma SavedAbsorbs(w: Weights, s: Store, p: Capture, user: Option<int>, attr: Attribution)
    ensures LeadAbsorbs(LeadSaved(w, s, p, attr), p)
    ensures Absorbs(Saved(w, s, p, user, attr), p)
  {
  }

  lemma LeadSaveKeepsAbsorbed(w: Weights, s: Store, q: Capture, attr: Attribution, p: Capture)
    ensures LeadAbsorbs(s, p) ==> LeadAbsorbs(LeadSaved(w, s, q, attr), p)
    ensures Absorbs(s, p) ==> Absorbs(LeadSaved(w, s, q, attr), p)
  {
  }

  lemma SaveKeepsAbsorbed(w: Weights, s: Store, q: Capture, user: Option<int>, attr: Attribution, p: Capture)
    ensures LeadAbsorbs(s, p) ==> LeadAbsorbs(Saved(w, s, q, user, attr), p)
    ensures Absorbs(s, p) ==> Absorbs(Saved(w, s, q, user, attr), p)
  {
    LeadSaveKeepsAbsorbed(w, s, q, attr, p);
  }

  lemma UploadKeepsAbsorbed(w: Weights, s: Store, row: ManualRow, job: int, user: Option<int>, p: Capture)
    ensures LeadAbsorbs(s, p) ==> LeadAbsorbs(Uploaded(w, s, row, job, user), p)
    ensures Absorbs(s, p) ==> Absorbs(Uploaded(w, s, row, job, user), p)
  {
  }

  /** Captures, uploads and recomputations keep everything the store has absorbed; edits may not. */
  lemma StepKeepsAbsorbed(w: Weights, s: Store, op: Op, p: Capture)
    requires !op.EditOp?
    ensures LeadAbsorbs(s, p) ==> LeadAbsorbs(Apply(w, s, op), p)
    ensures Absorbs(s, p) ==> Absorbs(Apply(w, s, op), p)
  {
    match op
    case SaveOp(q, user, attr) => SaveKeepsAbsorbed(w, s, q, user, attr, p);
    case LeadOnlyOp(q, attr) => LeadSaveKeepsAbsorbed(w, s, q, attr, p);
    case UploadOp(row, job, user) => UploadKeepsAbsorbed(w, s, row, job, user, p);
    case _ =>
  }

  /** How far the cloud got with a delivered item: it was refused, it failed after the lead's commit, or it was stored. */
  datatype Outcome = Refused | LeadOnly | Stored

  /** A run of the store: deliveries of outbox rows, and other writes. */
  datatype Event = Deliver(row: nat, user: Option<int>, attr: Attribution, outcome: Outcome) | Other(op: Op)

  function Effect(w: Weights, s: Store, payload: nat -> Capture, ev: Event): Store {
    match ev
    case Deliver(row, user, attr, Refused) => s
    case Deliver(row, user, attr, LeadOnly) => Apply(w, s, LeadOnlyOp(payload(row), attr))
    case Deliver(row, user, attr, Stored) => Apply(w, s, SaveOp(payload(row), user, attr))
    case Other(op) => Apply(w, s, op)
  }

  function Play(w: Weights, s: Store, payload: nat -> Capture, evs: seq<Event>): Store {
    if evs == [] then s else Effect(w, Play(w, s, payload, evs[..|evs| - 1]), payload, evs[|evs| - 1])
  }

  predicate StoredIn(evs: seq<Event>, row: nat) {
    exists i :: 0 <= i < |evs| && evs[i].Deliver? && evs[i].row == row && evs[i].outcome.Stored?
  }

  /** Some delivery of the row got at least as far as the lead. */
  predicate ReachedIn(evs: seq<Event>, row: nat) {
    exists i :: 0 <= i < |evs| && evs[i].Deliver? && evs[i].row == row && !evs[i].outcome.Refused?
  }

  /** The event brings nothing that an earlier delivery of the same row did not bring. */
  predicate BringsNothing(before: seq<Event>, ev: Event) {
    match ev
    case Deliver(row, _, _, Refused) => true
    case Deliver(row, _, _, LeadOnly) => ReachedIn(before, row)
    case Deliver(row, _, _, Stored) => StoredIn(before, row)
    case Other(_) => false
  }

  /** The same run without refused deliveries and replays. */
  function FirstDeliveries(evs: seq<Event>): seq<Event> {
    if evs == [] then []
    else
      var init, last := evs[..|evs| - 1], evs[|evs| - 1];
      FirstDeliveries(init) + if BringsNothing(init, last) then [] else [last]
  }

  /** No event is an edit by a user. */
  predicate NoEdits(evs: seq<Event>) {
    forall i :: 0 <= i < |evs| && evs[i].Other? ==> !evs[i].op.EditOp?
  }

  lemma EffectKeepsAbsorbed(w: Weights, s: Store, payload: nat -> Capture, ev: Event, p: Capture)
    requires ev.Other? ==> !ev.op.EditOp?
    ensures LeadAbsorbs(s, p) ==> LeadAbsorbs(Effect(w, s, payload, ev), p)
    ensures Absorbs(s, p) ==> Absorbs(Effect(w, s, payload, ev), p)
  {
    match ev
    case Deliver(row, user, attr, Refused) =>
    case Deliver(row, user, attr, LeadOnly) => StepKeepsAbsorbed(w, s, LeadOnlyOp(payload(row), attr), p);
    case Deliver(row, user, attr, Stored) => StepKeepsAbsorbed(w, s, SaveOp(payload(row), user, attr), p);
    case Other(op) => StepKeepsAbsorbed(w, s, op, p);
  }

  lemma {:induction false} DeliveredIsAbsorbed(w: Weights, s: Store, payload: nat -> Capture, evs: seq<Event>, row: nat)
    requires NoEdits(evs)
    ensures ReachedIn(evs, row) ==> LeadAbsorbs(Play(w, s, payload, evs), payload(row))
    ensures StoredIn(evs, row) ==> Absorbs(Play(w, s, payload, evs), payload(row))
  {
    if evs != [] {
      var init, last := evs[..|evs| - 1], evs[|evs| - 1];
      var before := Play(w, s, payload, init);
      DeliveredIsAbsorbed(w, s, payload, init, row);
      EffectKeepsAbsorbed(w, before, payload, last, payload(row));
      DeliveredBefore(evs, row);
      if last.Deliver? && last.row == row {
        SavedAbsorbs(w, before, payload(row), last.user, last.attr);
      }
    }
  }

  lemma DeliveredBefore(evs: seq<Event>, row: nat)
    requires evs != []
    ensures var init, last := evs[..|evs| - 1], evs[|evs| - 1];
            && (ReachedIn(evs, row) <==> ReachedIn(init, row) || (last.Deliver? && last.row == row && !last.outcome.Refused?))
            && (StoredIn(evs, row) <==> StoredIn(init, row) || (last.Deliver? && last.row == row && last.outcome.Stored?))
  {
    var init := evs[..|evs| - 1];
    assert forall i :: 0 <= i < |init| ==> init[i] == evs[i];
    if ReachedIn(init, row) {
      var i :| 0 <= i < |init| && init[i].Deliver? && init[i].row == row && !init[i].outcome.Refused?;
      assert evs[i] == init[i];
    }
    if StoredIn(init, row) {
      var i :| 0 <= i < |init| && init[i].Deliver? && init[i].row == row && init[i].outcome.Stored?;
      assert evs[i] == init[i];
    }
  }

  /** An event that brings nothing new leaves the store as it is. */
  lemma NothingNewNoChange(w: Weights, s: Store, payload: nat -> Capture, evs: seq<Event>, ev: Event)
    requires NoEdits(evs) && BringsNothing(evs, ev)
    ensures Effect(w, Play(w, s, payload, evs), payload, ev) == Play(w, s, payload, evs)
  {
    var now := Play(w, s, payload, evs);
    DeliveredIsAbsorbed(w, s, payload, evs, ev.row);
    LeadAbsorbedIffUnchanged(w, now, payload(ev.row), ev.attr);
    AbsorbedIffUnchanged(w, now, payload(ev.row), ev.user, ev.attr);
  }

  /**
   However often and in whatever order rows are delivered again, and whichever deliveries the cloud
   refuses, the store is the one got from the first delivery that stored each row (and, before it, the
   first that failed half-way); uploads, recomputations and other captures may come in between.
   */
  lemma {:induction false} ReplaysAreAbsorbed(w: Weights, s: Store, payload: nat -> Capture, evs: seq<Event>)
    requires NoEdits(evs)
    ensures Play(w, s, payload, evs) == Play(w, s, payload, FirstDeliveries(evs))
  {
    if evs != [] {
      var init, last := evs[..|evs| - 1], evs[|evs| - 1];
      ReplaysAreAbsorbed(w, s, payload, init);
      var first := FirstDeliveries(init);
      if BringsNothing(init, last) {
        NothingNewNoChange(w, s, payload, init, last);
        assert FirstDeliveries(evs) == first;
      } else {
        assert (first + [last])[..|first|] == first;
      }
    }
  }

  // ---- each row once ----

  /** A refused delivery, or one of a row whose lead an earlier delivery reached. */
  predicate TooLate(before: seq<Event>, ev: Event) {
    ev.Deliver? && (ev.outcome.Refused? || ReachedIn(before, ev.row))
  }

  /** The same run with each row delivered once, when it first reached its lead. */
  function FirstReached(evs: seq<Event>): seq<Event> {
    if evs == [] then []
    else
      var init, last := evs[..|evs| - 1], evs[|evs| - 1];
      FirstReached(init) + if TooLate(init, last) then [] else [last]
  }

  lemma SameLeadsSameSave(w: Weights, s: Store, t: Store, p: Capture, user: Option<int>, attr: Attribution)
    requires s.leads == t.leads && s.nextId == t.nextId
    ensures LeadSaved(w, s, p, attr).leads == LeadSaved(w, t, p, attr).leads
    ensures LeadSaved(w, s, p, attr).nextId == LeadSaved(w, t, p, attr).nextId
    ensures Saved(w, s, p, user, attr).leads == LeadSaved(w, s, p, attr).leads
    ensures Saved(w, s, p, user, attr).nextId == LeadSaved(w, s, p, attr).nextId
  {
  }

  lemma SameLeadsSameUpload(w: Weights, s: Store, t: Store, row: ManualRow, job: int, user: Option<int>)
    requires s.leads == t.leads && s.nextId == t.nextId
    ensures Uploaded(w, s, row, job, user).leads == Uploaded(w, t, row, job, user).leads
    ensures Uploaded(w, s, row, job, user).nextId == Uploaded(w, t, row, job, user).nextId
  {
  }

  lemma SameLeadsSameStep(w: Weights, s: Store, t: Store, op: Op)
    requires s.leads == t.leads && s.nextId == t.nextId
    ensures Apply(w, s, op).leads == Apply(w, t, op).leads && Apply(w, s, op).nextId == Apply(w, t, op).nextId
  {
    match op
    case SaveOp(p, user, attr) =>
      SameLeadsSameSave(w, s, t, p, user, attr);
      SameLeadsSameSave(w, t, t, p, user, attr);
    case LeadOnlyOp(p, attr) => SameLeadsSameSave(w, s, t, p, None, attr);
    case UploadOp(row, job, user) => SameLeadsSameUpload(w, s, t, row, job, user);
    case _ =>
  }

  /** Occurrences play no part in what happens to the leads. */
  lemma SameLeadsSameEffect(w: Weights, s: Store, t: Store, payload: nat -> Capture, ev: Event)
    requires s.leads == t.leads && s.nextId == t.nextId
    ensures var s', t' := Effect(w, s, payload, ev), Effect(w, t, payload, ev);
            s'.leads == t'.leads && s'.nextId == t'.nextId
  {
    match ev
    case Deliver(row, user, attr, Refused) =>
    case Deliver(row, user, attr, LeadOnly) => SameLeadsSameStep(w, s, t, LeadOnlyOp(payload(row), attr));
    case Deliver(row, user, attr, Stored) => SameLeadsSameStep(w, s, t, SaveOp(payload(row), user, attr));
    case Other(op) => SameLeadsSameStep(w, s, t, op);
  }

  lemma TooLateForTheLead(w: Weights, s: Store, payload: nat -> Capture, evs: seq<Event>, ev: Event)
    requires NoEdits(evs) && TooLate(evs, ev)
    ensures var before := Play(w, s, payload, evs);
            var after := Effect(w, before, payload, ev);
            after.leads == before.leads && after.nextId == before.nextId
  {
    DeliveredIsAbsorbed(w, s, payload, evs, ev.row);
    LeadAbsorbedIffUnchanged(w, Play(w, s, payload, evs), payload(ev.row), ev.attr);
  }

  /**
   However often rows are delivered, the leads are those of the run that delivers each row once, when it
   first got as far as its lead; whether that delivery was stored whole makes no difference to them.
   */
  lemma {:induction false} EachRowCountsOnce(w: Weights, s: Store, payload: nat -> Capture, evs: seq<Event>)
    requires NoEdits(evs)
    ensures var all, once := Play(w, s, payload, evs), Play(w, s, payload, FirstReached(evs));
            all.leads == once.leads && all.nextId == once.nextId
  {
    if evs != [] {
      var init, last := evs[..|evs| - 1], evs[|evs| - 1];
      var once := FirstReached(init);
      EachRowCountsOnce(w, s, payload, init);
      if TooLate(init, last) {
        TooLateForTheLead(w, s, payload, init, last);
        assert FirstReached(evs) == once;
      } else {
        SameLeadsSameEffect(w, Play(w, s, payload, init), Play(w, s, payload, once), payload, last);
        assert (once + [last])[..|once|] == once;
      }
    }
  }

  /** An address, the job that met it, and how. */
  datatype Record = Record(email: string, job: int, occurrence: Occurrence)

  function RecordOfCapture(p: Capture, user: Option<int>): Option<Record> {
    if Truthy(p.email) then Some(Record(Lower(p.email.value), p.jobId, Occurrence(p.sourceUrl, user))) else None
  }

  /** What an event has to record: a delivery only if it was stored whole. */
  function RecordOf(payload: nat -> Capture, ev: Event): Option<Record> {
    match ev
    case Deliver(row, user, _, Stored) => RecordOfCapture(payload(row), user)
    case Deliver(_, _, _, _) => None
    case Other(SaveOp(p, user, _)) => RecordOfCapture(p, user)
    case Other(UploadOp(row, job, user)) => Some(Record(row.email, job, Occurrence("manual-csv-upload", user)))
    case Other(_) => None
  }

  function Noted(ids: map<string, Lead>, occurrences: map<(int, int), Occurrence>, r: Option<Record>): map<(int, int), Occurrence> {
    if r.None? || r.value.email !in ids || (ids[r.value.email].id, r.value.job) in occurrences then occurrences
    else occurrences[(ids[r.value.email].id, r.value.job) := r.value.occurrence]
  }

  /** The occurrences a run records, in order, the first of each lead and job. */
  function Recordings(leads: map<string, Lead>, payload: nat -> Capture, occurrences: map<(int, int), Occurrence>,
                      evs: seq<Event>): map<(int, int), Occurrence>
  {
    if evs == [] then occurrences
    else Noted(leads, Recordings(leads, payload, occurrences, evs[..|evs| - 1]), RecordOf(payload, evs[|evs| - 1]))
  }

  /** No lead is lost and none changes its id. */
  ghost predicate Extends(later: map<string, Lead>, earlier: map<string, Lead>) {
    forall e :: e in earlier ==> e in later && later[e].id == earlier[e].id
  }

  lemma WriteExtends(leads: map<string, Lead>, e: string, lead: Lead)
    requires e in leads ==> lead.id == leads[e].id
    ensures Extends(leads[e := lead], leads)
  {
  }

  lemma SaveExtends(w: Weights, s: Store, p: Capture, user: Option<int>, attr: Attribution)
    ensures Extends(LeadSaved(w, s, p, attr).leads, s.leads)
    ensures Saved(w, s, p, user, attr).leads == LeadSaved(w, s, p, attr).leads
  {
    if Truthy(p.email) {
      var email := Lower(p.email.value);
      WriteExtends(s.leads, email, LeadSaved(w, s, p, attr).leads[email]);
    }
  }

  lemma UploadExtends(w: Weights, s: Store, row: ManualRow, job: int, user: Option<int>)
    ensures Extends(Uploaded(w, s, row, job, user).leads, s.leads)
  {
    WriteExtends(s.leads, row.email, Uploaded(w, s, row, job, user).leads[row.email]);
  }

  lemma StepExtends(w: Weights, s: Store, op: Op)
    ensures Extends(Apply(w, s, op).leads, s.leads)
  {
    match op
    case SaveOp(p, user, attr) => SaveExtends(w, s, p, user, attr);
    case LeadOnlyOp(p, attr) => SaveExtends(w, s, p, None, attr);
    case UploadOp(row, job, user) => UploadExtends(w, s, row, job, user);
    case _ =>
  }

  lemma EffectExtends(w: Weights, s: Store, payload: nat -> Capture, ev: Event)
    ensures Extends(Effect(w, s, payload, ev).leads, s.leads)
  {
    match ev
    case Deliver(row, user, attr, Refused) =>
    case Deliver(row, user, attr, LeadOnly) => StepExtends(w, s, LeadOnlyOp(payload(row), attr));
    case Deliver(row, user, attr, Stored) => StepExtends(w, s, SaveOp(payload(row), user, attr));
    case Other(op) => StepExtends(w, s, op);
  }

  lemma SaveRecords(w: Weights, s: Store, p: Capture, user: Option<int>, attr: Attribution)
    ensures LeadSaved(w, s, p, attr).occurrences == s.occurrences
    ensures var s' := Saved(w, s, p, user, attr);
            && s'.occurrences == Noted(s'.leads, s.occurrences, RecordOfCapture(p, user))
  {
  }

  lemma EffectRecords(w: Weights, s: Store, payload: nat -> Capture, ev: Event)
    ensures var s' := Effect(w, s, payload, ev);
            && s'.occurrences == Noted(s'.leads, s.occurrences, RecordOf(payload, ev))
            && (RecordOf(payload, ev).Some? ==> RecordOf(payload, ev).value.email in s'.leads)
  {
    match ev
    case Deliver(row, user, attr, Refused) =>
    case Deliver(row, user, attr, _) => SaveRecords(w, s, payload(row), user, attr);
    case Other(SaveOp(p, user, attr)) => SaveRecords(w, s, p, user, attr);
    case Other(LeadOnlyOp(p, attr)) => SaveRecords(w, s, p, None, attr);
    case Other(_) =>
  }

  /** The occurrences after any run are what it records, under the ids that leads end with. */
  lemma {:induction false} OccurrencesAreRecorded(w: Weights, s: Store, payload: nat -> Capture, evs: seq<Event>,
                                                  leads: map<string, Lead>)
    requires Extends(leads, Play(w, s, payload, evs).leads)
    ensures Play(w, s, payload, evs).occurrences == Recordings(leads, payload, s.occurrences, evs)
  {
    if evs != [] {
      var init, last := evs[..|evs| - 1], evs[|evs| - 1];
      var before := Play(w, s, payload, init);
      EffectExtends(w, before, payload, last);
      EffectRecords(w, before, payload, last);
      OccurrencesAreRecorded(w, s, payload, init, leads);
    }
  }

  /** An edit that clears a field makes the next replay write again. */
  lemma EditReopensReplay(w: Weights) returns (s: Store, p: Capture, edit: Edit)
    ensures Absorbs(s, p) && !Absorbs(Edited(w, s, "a", edit), p)
  {
    var blank: Fields := map[PersonName := None, Designation := None, Department := None, SourceTitle := None,
                             ContextSnippet := None, Phone := None, EntityKind := None];
    p := Capture(1, Some("a"), blank[PersonName := Some("N")], "u", None, None, None, false, 0);
    assert Lower("a") == "a";
    s := Saved(w, Store(map[], map[], 1), p, None, Attribution(None, None));
    SavedAbsorbs(w, Store(map[], map[], 1), p, None, Attribution(None, None));
    edit := Edit(Some(""), None, None, None);
    assert Edited(w, s, "a", edit).leads["a"].fields[PersonName] == None;
  }
}
