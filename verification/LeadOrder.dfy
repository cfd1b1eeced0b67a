/** Captures of one address: what the stored lead says does not depend on the order they arrive in. */
module LeadOrder {
  import opened Prelude
  import opened LeadStore

  /** A crawled capture of address e. */
  predicate CaptureOf(e: string, p: Capture) {
    Truthy(p.email) && Lower(p.email.value) == e && p.channelTag != Some("manual")
  }

  /** The fields whose text counts for the score. */
  const SCORED: set<Field> := {PersonName, Designation, Phone}

  /** A name, designation or phone is never whitespace only. */
  ghost predicate ScoredHaveText(p: Capture) {
    forall f :: f in SCORED && Truthy(At(p.fields, f)) ==> HasText(At(p.fields, f))
  }

  /** A department taken from the host name is a department. */
  predicate DepartmentStated(p: Capture) {
    p.urlDepartment ==> Truthy(p.fields[Department])
  }

  predicate CapturesOf(e: string, ops: seq<Op>) {
    forall i :: 0 <= i < |ops| ==> ops[i].SaveOp? && CaptureOf(e, ops[i].capture)
  }

  /** The department of the inserted lead would be the snapshot's title. */
  predicate TakesTitle(op: Op) {
    op.SaveOp? && op.attr.snapshot.Some? && op.capture.urlDepartment && Truthy(op.attr.title)
  }

  /** The capture that inserts the lead takes the title for its department. */
  predicate Titled(ops: seq<Op>) {
    ops != [] && TakesTitle(ops[0])
  }

  ghost predicate Fills(ops: seq<Op>, f: Field) {
    exists i :: 0 <= i < |ops| && ops[i].SaveOp? && Truthy(At(ops[i].capture.fields, f))
  }

  /** The first capture that states f states it with text. */
  ghost predicate TextFirst(ops: seq<Op>, f: Field) {
    exists i :: 0 <= i < |ops| && ops[i].SaveOp? && HasText(At(ops[i].capture.fields, f)) && !Fills(ops[..i], f)
  }

  /** What name, designation and phone are worth when each is whatever was stated first. */
  ghost function TextScore(w: Weights, ops: seq<Op>): int {
    Slice(TextFirst(ops, PersonName), w.personName) + Slice(TextFirst(ops, Designation), w.designation)
    + Slice(TextFirst(ops, Phone), w.phone)
  }

  ghost predicate FromJob(ops: seq<Op>, job: int) {
    exists i :: 0 <= i < |ops| && ops[i].SaveOp? && ops[i].capture.jobId == job
  }

  ghost predicate HasRank(ops: seq<Op>, rank: int) {
    exists i :: 0 <= i < |ops| && ops[i].SaveOp? && Rank(ops[i].capture.band) == rank
  }

  /** Occurrences belong to leads already numbered. */
  ghost predicate WellNumbered(s: Store) {
    forall k :: k in s.occurrences ==> k.0 < s.nextId
  }

  ghost predicate SumsFields(fields: Fields, ops: seq<Op>) {
    && (forall f :: Truthy(At(fields, f)) <==> Fills(ops, f) || (f == Department && Titled(ops)))
    && (forall f :: f in SCORED ==> (HasText(At(fields, f)) <==> TextFirst(ops, f)))
  }

  ghost predicate SumsBand(rank: int, ops: seq<Op>) {
    HasRank(ops, rank) && forall r :: HasRank(ops, r) ==> r <= rank
  }

  /** What the captures make of the lead: the filled fields, those with text, the best band and the set of jobs. */
  ghost predicate Summarises(w: Weights, s: Store, e: string, id: int, ops: seq<Op>) {
    && e in s.leads
    && var lead := s.leads[e];
    && lead.id == id && lead.channelTag != Some("manual")
    && SumsFields(lead.fields, ops) && SumsBand(Rank(lead.band), ops)
    && (forall job :: (id, job) in s.occurrences <==> FromJob(ops, job))
    && lead.score == ScoreOf(w, e, lead.fields, lead.band, lead.channelTag)
  }

  lemma FillsAppend(ops: seq<Op>, op: Op, f: Field)
    requires op.SaveOp?
    ensures Fills(ops + [op], f) <==> Fills(ops, f) || Truthy(At(op.capture.fields, f))
  {
    var all := ops + [op];
    if Fills(ops, f) {
      var i :| 0 <= i < |ops| && ops[i].SaveOp? && Truthy(At(ops[i].capture.fields, f));
      assert all[i] == ops[i];
    }
    assert all[|ops|] == op;
  }

  lemma TextFirstAppend(ops: seq<Op>, op: Op, f: Field)
    requires op.SaveOp?
    ensures TextFirst(ops + [op], f) <==> TextFirst(ops, f) || (!Fills(ops, f) && HasText(At(op.capture.fields, f)))
  {
    var all := ops + [op];
    assert all[|ops|] == op && all[..|ops|] == ops;
    assert forall i :: 0 <= i < |ops| ==> all[i] == ops[i] && all[..i] == ops[..i];
    if TextFirst(ops, f) {
      var i :| 0 <= i < |ops| && ops[i].SaveOp? && HasText(At(ops[i].capture.fields, f)) && !Fills(ops[..i], f);
      assert all[i] == ops[i] && all[..i] == ops[..i];
    }
    if TextFirst(all, f) {
      var i :| 0 <= i < |all| && all[i].SaveOp? && HasText(At(all[i].capture.fields, f)) && !Fills(all[..i], f);
      assert i < |ops| ==> ops[i] == all[i] && ops[..i] == all[..i];
    }
  }

  lemma FromJobAppend(ops: seq<Op>, op: Op, job: int)
    requires op.SaveOp?
    ensures FromJob(ops + [op], job) <==> FromJob(ops, job) || op.capture.jobId == job
  {
    var all := ops + [op];
    if FromJob(ops, job) {
      var i :| 0 <= i < |ops| && ops[i].SaveOp? && ops[i].capture.jobId == job;
      assert all[i] == ops[i];
    }
    assert all[|ops|] == op;
  }

  lemma HasRankAppend(ops: seq<Op>, op: Op, r: int)
    requires op.SaveOp?
    ensures HasRank(ops + [op], r) <==> HasRank(ops, r) || Rank(op.capture.band) == r
  {
    var all := ops + [op];
    if HasRank(ops, r) {
      var i :| 0 <= i < |ops| && ops[i].SaveOp? && Rank(ops[i].capture.band) == r;
      assert all[i] == ops[i];
    }
    assert all[|ops|] == op;
  }

  lemma AppendFacts(ops: seq<Op>, op: Op)
    requires op.SaveOp?
    ensures forall f :: Fills(ops + [op], f) <==> Fills(ops, f) || Truthy(At(op.capture.fields, f))
    ensures forall f :: TextFirst(ops + [op], f) <==> TextFirst(ops, f) || (!Fills(ops, f) && HasText(At(op.capture.fields, f)))
    ensures forall job :: FromJob(ops + [op], job) <==> FromJob(ops, job) || op.capture.jobId == job
    ensures forall r :: HasRank(ops + [op], r) <==> HasRank(ops, r) || Rank(op.capture.band) == r
  {
    forall f ensures Fills(ops + [op], f) <==> Fills(ops, f) || Truthy(At(op.capture.fields, f)) { FillsAppend(ops, op, f); }
    forall f ensures TextFirst(ops + [op], f) <==> TextFirst(ops, f) || (!Fills(ops, f) && HasText(At(op.capture.fields, f))) {
      TextFirstAppend(ops, op, f);
    }
    forall job ensures FromJob(ops + [op], job) <==> FromJob(ops, job) || op.capture.jobId == job { FromJobAppend(ops, op, job); }
    forall r ensures HasRank(ops + [op], r) <==> HasRank(ops, r) || Rank(op.capture.band) == r { HasRankAppend(ops, op, r); }
  }

  lemma FirstCapture(w: Weights, s: Store, e: string, op: Op)
    requires e !in s.leads && WellNumbered(s) && CapturesOf(e, [op])
    ensures Summarises(w, Apply(w, s, op), e, s.nextId, [op])
  {
    assert [op][0] == op;
    AppendFacts([], op);
    assert [] + [op] == [op];
    var fields := InitialFields(op.capture, op.attr);
    assert forall f :: Truthy(At(fields, f)) <==> Truthy(At(op.capture.fields, f)) || (f == Department && TakesTitle(op));
  }

  lemma NextText(w: Weights, e: string, lead: Lead, p: Capture, f: Field)
    ensures var fields := Enriched(w, e, lead, p).fields;
            && (Truthy(At(fields, f)) <==> Truthy(At(lead.fields, f)) || Truthy(At(p.fields, f)))
            && (HasText(At(fields, f)) <==> HasText(At(lead.fields, f)) || (!Truthy(At(lead.fields, f)) && HasText(At(p.fields, f))))
  {
  }

  lemma NextRow(w: Weights, e: string, lead: Lead, p: Capture)
    requires lead.score == ScoreOf(w, e, lead.fields, lead.band, lead.channelTag)
    ensures var next := Enriched(w, e, lead, p);
            && next.id == lead.id && next.channelTag == lead.channelTag
            && Rank(next.band) == (if Rank(p.band) > Rank(lead.band) then Rank(p.band) else Rank(lead.band))
            && next.score == ScoreOf(w, e, next.fields, next.band, next.channelTag)
  {
  }

  lemma NextOccurrence(w: Weights, s: Store, e: string, op: Op, job: int)
    requires op.SaveOp? && CaptureOf(e, op.capture) && e in s.leads
    ensures var s' := Apply(w, s, op);
            && e in s'.leads && s'.leads[e] == Enriched(w, e, s.leads[e], op.capture)
            && ((s.leads[e].id, job) in s'.occurrences <==> (s.leads[e].id, job) in s.occurrences || op.capture.jobId == job)
  {
  }

  /** ops' says what ops says, and what p says. */
  ghost predicate AddsTo(ops: seq<Op>, p: Capture, ops': seq<Op>) {
    && (forall f :: Fills(ops', f) <==> Fills(ops, f) || Truthy(At(p.fields, f)))
    && (forall f :: TextFirst(ops', f) <==> TextFirst(ops, f) || (!Fills(ops, f) && HasText(At(p.fields, f))))
    && (forall job :: FromJob(ops', job) <==> FromJob(ops, job) || p.jobId == job)
    && (forall r :: HasRank(ops', r) <==> HasRank(ops, r) || Rank(p.band) == r)
    && (Titled(ops') <==> Titled(ops))
  }

  lemma FieldsGrow(w: Weights, e: string, lead: Lead, p: Capture, ops: seq<Op>, ops': seq<Op>)
    requires SumsFields(lead.fields, ops) && AddsTo(ops, p, ops')
    ensures SumsFields(Enriched(w, e, lead, p).fields, ops')
  {
    var fields := Enriched(w, e, lead, p).fields;
    forall f ensures Truthy(At(fields, f)) <==> Fills(ops', f) || (f == Department && Titled(ops')) {
      NextText(w, e, lead, p, f);
    }
    forall f | f in SCORED ensures HasText(At(fields, f)) <==> TextFirst(ops', f) {
      NextText(w, e, lead, p, f);
      assert Truthy(At(lead.fields, f)) <==> Fills(ops, f);
    }
  }

  lemma BandGrows(rank: int, p: Capture, ops: seq<Op>, ops': seq<Op>)
    requires SumsBand(rank, ops) && AddsTo(ops, p, ops')
    ensures SumsBand(if Rank(p.band) > rank then Rank(p.band) else rank, ops')
  {
  }

  lemma SummaryGrows(w: Weights, s: Store, s': Store, e: string, id: int, ops: seq<Op>, p: Capture, ops': seq<Op>)
    requires Summarises(w, s, e, id, ops) && AddsTo(ops, p, ops')
    requires e in s'.leads && s'.leads[e] == Enriched(w, e, s.leads[e], p)
    requires forall job :: (id, job) in s'.occurrences <==> (id, job) in s.occurrences || p.jobId == job
    ensures Summarises(w, s', e, id, ops')
  {
    NextRow(w, e, s.leads[e], p);
    FieldsGrow(w, e, s.leads[e], p, ops, ops');
    BandGrows(Rank(s.leads[e].band), p, ops, ops');
  }

  lemma NextCapture(w: Weights, s: Store, e: string, id: int, ops: seq<Op>, op: Op)
    requires Summarises(w, s, e, id, ops) && CapturesOf(e, [op]) && ops != []
    ensures Summarises(w, Apply(w, s, op), e, id, ops + [op])
  {
    assert [op][0] == op;
    AppendFacts(ops, op);
    assert (ops + [op])[0] == ops[0];
    forall job ensures (id, job) in Apply(w, s, op).occurrences <==> (id, job) in s.occurrences || op.capture.jobId == job {
      NextOccurrence(w, s, e, op, job);
    }
    NextOccurrence(w, s, e, op, 0);
    SummaryGrows(w, s, Apply(w, s, op), e, id, ops, op.capture, ops + [op]);
  }

  /** After any captures of a new address the lead is their summary. */
  lemma {:induction false} CapturesSummarised(w: Weights, s: Store, e: string, ops: seq<Op>)
    requires e !in s.leads && WellNumbered(s) && CapturesOf(e, ops) && ops != []
    ensures Summarises(w, ApplyAll(w, s, ops), e, s.nextId, ops)
  {
    var init, last := ops[..|ops| - 1], ops[|ops| - 1];
    assert ops == init + [last];
    if init == [] {
      assert ops == [last];
      assert ApplyAll(w, s, init) == s;
      FirstCapture(w, s, e, last);
    } else {
      CapturesSummarised(w, s, e, init);
      NextCapture(w, ApplyAll(w, s, init), e, s.nextId, init, last);
    }
  }

  ghost predicate Brings(ops: seq<Op>, p: Capture) {
    exists i :: 0 <= i < |ops| && ops[i].SaveOp? && ops[i].capture == p
  }

  /** The same captures, in any order and number. */
  ghost predicate SameCaptures(a: seq<Op>, b: seq<Op>) {
    forall p :: Brings(a, p) <==> Brings(b, p)
  }

  lemma FactsCarryOver(a: seq<Op>, b: seq<Op>)
    requires SameCaptures(a, b)
    ensures forall f :: Fills(a, f) ==> Fills(b, f)
    ensures forall job :: FromJob(a, job) ==> FromJob(b, job)
    ensures forall r :: HasRank(a, r) ==> HasRank(b, r)
  {
    forall i | 0 <= i < |a| && a[i].SaveOp?
      ensures exists j :: 0 <= j < |b| && b[j].SaveOp? && b[j].capture == a[i].capture
    {
      assert Brings(a, a[i].capture);
      assert Brings(b, a[i].capture);
    }
  }

  /** The stored leads of address e agree in everything but the stored values. */
  ghost predicate Agree(sa: Store, sb: Store, e: string) {
    && e in sa.leads && e in sb.leads
    && var la, lb := sa.leads[e], sb.leads[e];
    && la.id == lb.id && la.score == lb.score
    && (forall f :: Truthy(At(la.fields, f)) <==> Truthy(At(lb.fields, f)))
    && Rank(la.band) == Rank(lb.band) && (Rank(la.band) >= 0 ==> la.band == lb.band)
    && (forall job :: (la.id, job) in sa.occurrences <==> (lb.id, job) in sb.occurrences)
  }

  /** The score of a lead that sums up captures: what its band makes of the address, and the text that came first. */
  lemma SummaryScore(w: Weights, s: Store, e: string, id: int, ops: seq<Op>)
    requires Summarises(w, s, e, id, ops)
    ensures s.leads[e].score
            == Slice(HasText(Some(e)), if s.leads[e].band == Some("HIGH") then w.emailHigh else w.emailLow) + TextScore(w, ops)
  {
    var lead := s.leads[e];
    assert HasText(At(lead.fields, PersonName)) <==> TextFirst(ops, PersonName);
    assert HasText(At(lead.fields, Designation)) <==> TextFirst(ops, Designation);
    assert HasText(At(lead.fields, Phone)) <==> TextFirst(ops, Phone);
  }

  lemma SummariesRankAlike(w: Weights, sa: Store, sb: Store, e: string, id: int, a: seq<Op>, b: seq<Op>)
    requires Summarises(w, sa, e, id, a) && Summarises(w, sb, e, id, b)
    requires forall r :: HasRank(a, r) <==> HasRank(b, r)
    ensures var la, lb := sa.leads[e], sb.leads[e];
            && Rank(la.band) == Rank(lb.band) && (Rank(la.band) >= 0 ==> la.band == lb.band)
            && (la.score == lb.score <==> TextScore(w, a) == TextScore(w, b))
  {
    assert HasRank(b, Rank(sa.leads[e].band)) && HasRank(a, Rank(sb.leads[e].band));
    SummaryScore(w, sa, e, id, a);
    SummaryScore(w, sb, e, id, b);
  }

  lemma SummariesFillAlike(w: Weights, sa: Store, sb: Store, e: string, id: int, a: seq<Op>, b: seq<Op>)
    requires Summarises(w, sa, e, id, a) && Summarises(w, sb, e, id, b)
    requires forall f :: Fills(a, f) <==> Fills(b, f)
    ensures (forall f :: Truthy(At(sa.leads[e].fields, f)) <==> Truthy(At(sb.leads[e].fields, f)))
            <==> Fills(a, Department) || (Titled(a) <==> Titled(b))
  {
    var la, lb := sa.leads[e], sb.leads[e];
    forall f ensures f != Department ==> (Truthy(At(la.fields, f)) <==> Truthy(At(lb.fields, f))) {
      assert Fills(a, f) <==> Fills(b, f);
    }
    assert (Truthy(At(la.fields, Department)) <==> Truthy(At(lb.fields, Department)))
           <==> Fills(a, Department) || (Titled(a) <==> Titled(b));
  }

  lemma SummariesAgree(w: Weights, sa: Store, sb: Store, e: string, id: int, a: seq<Op>, b: seq<Op>)
    requires Summarises(w, sa, e, id, a) && Summarises(w, sb, e, id, b)
    requires forall f :: Fills(a, f) <==> Fills(b, f)
    requires forall r :: HasRank(a, r) <==> HasRank(b, r)
    requires forall job :: FromJob(a, job) <==> FromJob(b, job)
    ensures Agree(sa, sb, e)
            <==> (Fills(a, Department) || (Titled(a) <==> Titled(b))) && TextScore(w, a) == TextScore(w, b)
  {
    SummariesRankAlike(w, sa, sb, e, id, a, b);
    SummariesFillAlike(w, sa, sb, e, id, a, b);
  }

  /**
   Two orders of the same captures of a new address agree exactly when some capture states a department, or
   both insert with the snapshot's title for it, or neither does; and the names, designations and phones
   stated first are worth the same, text against white space.
   */
  lemma OrdersAgreeExactly(w: Weights, s: Store, e: string, a: seq<Op>, b: seq<Op>)
    requires e !in s.leads && WellNumbered(s) && a != [] && b != []
    requires CapturesOf(e, a) && CapturesOf(e, b) && SameCaptures(a, b)
    ensures Agree(ApplyAll(w, s, a), ApplyAll(w, s, b), e)
            <==> (Fills(a, Department) || (Titled(a) <==> Titled(b))) && TextScore(w, a) == TextScore(w, b)
  {
    CapturesSummarised(w, s, e, a);
    CapturesSummarised(w, s, e, b);
    FactsCarryOver(a, b);
    FactsCarryOver(b, a);
    SummariesAgree(w, ApplyAll(w, s, a), ApplyAll(w, s, b), e, s.nextId, a, b);
  }

  lemma {:induction false} TextIffFilled(ops: seq<Op>, f: Field)
    requires forall i :: 0 <= i < |ops| ==> ops[i].SaveOp?
    requires forall i :: 0 <= i < |ops| && Truthy(At(ops[i].capture.fields, f)) ==> HasText(At(ops[i].capture.fields, f))
    ensures TextFirst(ops, f) <==> Fills(ops, f)
  {
    if ops != [] {
      var init, last := ops[..|ops| - 1], ops[|ops| - 1];
      assert ops == init + [last];
      TextIffFilled(init, f);
      FillsAppend(init, last, f);
      TextFirstAppend(init, last, f);
    }
  }

  lemma PremisesCarryOver(a: seq<Op>, b: seq<Op>)
    requires SameCaptures(a, b) && forall i :: 0 <= i < |a| ==> a[i].SaveOp?
    requires forall j :: 0 <= j < |b| ==> b[j].SaveOp?
    requires forall i :: 0 <= i < |a| ==> DepartmentStated(a[i].capture) && ScoredHaveText(a[i].capture)
    ensures forall j :: 0 <= j < |b| ==> DepartmentStated(b[j].capture) && ScoredHaveText(b[j].capture)
  {
    forall j | 0 <= j < |b| ensures DepartmentStated(b[j].capture) && ScoredHaveText(b[j].capture) {
      assert Brings(b, b[j].capture);
      var i :| 0 <= i < |a| && a[i].SaveOp? && a[i].capture == b[j].capture;
    }
  }

  lemma ScoreIsOfFilled(w: Weights, ops: seq<Op>)
    requires forall i :: 0 <= i < |ops| ==> ops[i].SaveOp? && ScoredHaveText(ops[i].capture)
    ensures TextScore(w, ops) == Slice(Fills(ops, PersonName), w.personName) + Slice(Fills(ops, Designation), w.designation)
                                 + Slice(Fills(ops, Phone), w.phone)
  {
    TextIffFilled(ops, PersonName);
    TextIffFilled(ops, Designation);
    TextIffFilled(ops, Phone);
  }

  lemma TitledFills(ops: seq<Op>)
    requires Titled(ops) ==> DepartmentStated(ops[0].capture)
    ensures Titled(ops) ==> Fills(ops, Department)
  {
    if Titled(ops) {
      assert Truthy(At(ops[0].capture.fields, Department));
    }
  }

  lemma PremisesSuffice(w: Weights, a: seq<Op>, b: seq<Op>)
    requires SameCaptures(a, b) && a != [] && b != []
    requires forall i :: 0 <= i < |a| ==> a[i].SaveOp? && DepartmentStated(a[i].capture) && ScoredHaveText(a[i].capture)
    requires forall j :: 0 <= j < |b| ==> b[j].SaveOp?
    ensures (Fills(a, Department) || (Titled(a) <==> Titled(b))) && TextScore(w, a) == TextScore(w, b)
  {
    PremisesCarryOver(a, b);
    FactsCarryOver(a, b);
    FactsCarryOver(b, a);
    ScoreIsOfFilled(w, a);
    ScoreIsOfFilled(w, b);
    TitledFills(a);
    TitledFills(b);
  }

  /**
   For captures as the agent sends them, whose names, designations and phones have text and which carry a
   department whenever they say it came from the host name, every order, repeated or not, gives a lead with
   the same filled fields, the same band rank, the same score and the same jobs; the stored values
   themselves are those of whoever came first.
   */
  lemma OrderDoesNotMatter(w: Weights, s: Store, e: string, a: seq<Op>, b: seq<Op>)
    requires e !in s.leads && WellNumbered(s) && a != [] && b != []
    requires CapturesOf(e, a) && CapturesOf(e, b) && SameCaptures(a, b)
    requires forall i :: 0 <= i < |a| ==> DepartmentStated(a[i].capture) && ScoredHaveText(a[i].capture)
    ensures Agree(ApplyAll(w, s, a), ApplyAll(w, s, b), e)
  {
    PremisesSuffice(w, a, b);
    OrdersAgreeExactly(w, s, e, a, b);
  }

  // ---- why the premises are needed ----

  function NoFields(): Fields {
    map[PersonName := None, Designation := None, Department := None, SourceTitle := None,
        ContextSnippet := None, Phone := None, EntityKind := None]
  }

  function Bare(fields: Fields, urlDepartment: bool): Capture {
    Capture(1, Some("a"), fields, "u", None, None, None, urlDepartment, 0)
  }

  /** A whitespace-only name arriving first keeps the real one out, and the score differs. */
  lemma WhitespaceNameBlocks(w: Weights)
    requires w.personName != 0
    ensures var blank := SaveOp(Bare(NoFields()[PersonName := Some(" ")], false), None, Attribution(None, None));
            var named := SaveOp(Bare(NoFields()[PersonName := Some("N")], false), None, Attribution(None, None));
            var s := Store(map[], map[], 1);
            "a" in Apply(w, Apply(w, s, blank), named).leads && "a" in Apply(w, Apply(w, s, named), blank).leads &&
            Apply(w, Apply(w, s, blank), named).leads["a"].score != Apply(w, Apply(w, s, named), blank).leads["a"].score
  {
    assert Lower("a") == "a";
    assert !IsSpace("N"[0]);
    assert "N"[0] == 'N' && " "[0] == ' ';
  }

  /**
   A capture that says its department came from the host name but carries none, as only a foreign client
   would send, is given the snapshot's title only if it comes first.
   */
  lemma UnstatedDepartmentDependsOnOrder(w: Weights)
    ensures var first := SaveOp(Bare(NoFields(), true), None, Attribution(Some(7), Some("T")));
            var plain := SaveOp(Bare(NoFields(), false), None, Attribution(None, None));
            var s := Store(map[], map[], 1);
            && !DepartmentStated(first.capture)
            && "a" in Apply(w, Apply(w, s, first), plain).leads && "a" in Apply(w, Apply(w, s, plain), first).leads
            && Truthy(Apply(w, Apply(w, s, first), plain).leads["a"].fields[Department])
            && !Truthy(Apply(w, Apply(w, s, plain), first).leads["a"].fields[Department])
  {
    assert Lower("a") == "a";
  }
}
