/**
 From the outbox to the lead store: what the store holds after any run of the flushers, given how far
 the cloud got with each delivered item. An acked row was processed, which is not to say stored.
 */
module EndToEnd {
  import opened Prelude
  import opened LeadStore
  import opened Outbox
  import opened Delivery

  /** The deliveries in a run of the store, in order. */
  function Trace(evs: seq<Event>): seq<Delivered> {
    if evs == [] then []
    else
      Trace(evs[..|evs| - 1])
      + if evs[|evs| - 1].Deliver? then [Delivered(evs[|evs| - 1].row, evs[|evs| - 1].outcome)] else []
  }

  predicate WasStored(ds: seq<Delivered>, row: nat) {
    exists i :: 0 <= i < |ds| && ds[i].row == row && ds[i].outcome.Stored?
  }

  predicate WasReached(ds: seq<Delivered>, row: nat) {
    exists i :: 0 <= i < |ds| && ds[i].row == row && !ds[i].outcome.Refused?
  }

  lemma OneMoreDelivery(ds: seq<Delivered>, d: Delivered)
    ensures forall row :: WasStored(ds + [d], row) <==> WasStored(ds, row) || (d.row == row && d.outcome.Stored?)
    ensures forall row :: WasReached(ds + [d], row) <==> WasReached(ds, row) || (d.row == row && !d.outcome.Refused?)
  {
    var more := ds + [d];
    assert more[|ds|] == d;
    assert forall i :: 0 <= i < |ds| ==> more[i] == ds[i];
    forall row | WasStored(ds, row) ensures WasStored(more, row) {
      var i :| 0 <= i < |ds| && ds[i].row == row && ds[i].outcome.Stored?;
      assert more[i] == ds[i];
    }
    forall row | WasReached(ds, row) ensures WasReached(more, row) {
      var i :| 0 <= i < |ds| && ds[i].row == row && !ds[i].outcome.Refused?;
      assert more[i] == ds[i];
    }
  }

  lemma {:induction false} TraceTells(evs: seq<Event>, row: nat)
    ensures WasStored(Trace(evs), row) <==> StoredIn(evs, row)
    ensures WasReached(Trace(evs), row) <==> ReachedIn(evs, row)
  {
    if evs != [] {
      var init, last := evs[..|evs| - 1], evs[|evs| - 1];
      TraceTells(init, row);
      DeliveredBefore(evs, row);
      if last.Deliver? {
        OneMoreDelivery(Trace(init), Delivered(last.row, last.outcome));
      } else {
        assert Trace(evs) == Trace(init);
      }
    }
  }

  // ---- the order of what arrives ----

  /** The outcome is at least as good as goal. */
  predicate GotTo(outcome: Outcome, goal: Outcome) {
    match goal
    case Refused => true
    case LeadOnly => !outcome.Refused?
    case Stored => outcome.Stored?
  }

  /** The rows whose deliveries got as far as goal, in order, replays included. */
  function RowsTo(goal: Outcome, ds: seq<Delivered>): seq<nat> {
    if ds == [] then []
    else RowsTo(goal, ds[..|ds| - 1]) + if GotTo(ds[|ds| - 1].outcome, goal) then [ds[|ds| - 1].row] else []
  }

  /** Keeps the first of equal elements. */
  function Distinct(s: seq<nat>): seq<nat> {
    if s == [] then []
    else Distinct(s[..|s| - 1]) + if s[|s| - 1] in s[..|s| - 1] then [] else [s[|s| - 1]]
  }

  lemma {:induction false} DistinctIsDistinct(s: seq<nat>)
    ensures forall x :: x in s <==> x in Distinct(s)
    ensures forall i, j :: 0 <= i < j < |Distinct(s)| ==> Distinct(s)[i] != Distinct(s)[j]
  {
    if s != [] {
      DistinctIsDistinct(s[..|s| - 1]);
      assert s == s[..|s| - 1] + [s[|s| - 1]];
    }
  }

  lemma RowsToMore(goal: Outcome, ds: seq<Delivered>, d: Delivered)
    ensures RowsTo(goal, ds + [d]) == if GotTo(d.outcome, goal) then RowsTo(goal, ds) + [d.row] else RowsTo(goal, ds)
  {
    assert (ds + [d])[..|ds|] == ds;
  }

  lemma DistinctMore(s: seq<nat>, x: nat)
    ensures Distinct(s + [x]) == if x in s then Distinct(s) else Distinct(s) + [x]
  {
    assert (s + [x])[..|s|] == s;
  }

  lemma {:induction false} RowsToTell(ds: seq<Delivered>, row: nat)
    ensures row in RowsTo(Stored, ds) <==> WasStored(ds, row)
    ensures row in RowsTo(LeadOnly, ds) <==> WasReached(ds, row)
  {
    if ds != [] {
      RowsToTell(ds[..|ds| - 1], row);
      OneMoreDelivery(ds[..|ds| - 1], ds[|ds| - 1]);
      assert ds == ds[..|ds| - 1] + [ds[|ds| - 1]];
    }
  }

  lemma TraceMore(evs: seq<Event>, ev: Event)
    ensures Trace(evs + [ev]) == if ev.Deliver? then Trace(evs) + [Delivered(ev.row, ev.outcome)] else Trace(evs)
  {
    assert (evs + [ev])[..|evs|] == evs;
  }

  /** The rows whose deliveries got as far as goal in a run of the store. */
  function RowsBy(goal: Outcome, evs: seq<Event>): seq<nat> {
    RowsTo(goal, Trace(evs))
  }

  lemma RowsByMore(goal: Outcome, evs: seq<Event>, ev: Event)
    ensures RowsBy(goal, evs + [ev])
            == if ev.Deliver? && GotTo(ev.outcome, goal) then RowsBy(goal, evs) + [ev.row] else RowsBy(goal, evs)
  {
    TraceMore(evs, ev);
    if ev.Deliver? {
      RowsToMore(goal, Trace(evs), Delivered(ev.row, ev.outcome));
    }
  }

  lemma DistinctStep(rows: seq<nat>, rows': seq<nat>, kept: seq<nat>, kept': seq<nat>, adds: bool, x: nat)
    requires kept == Distinct(rows) && rows' == (if adds then rows + [x] else rows)
    requires kept' == if adds && x !in rows then kept + [x] else kept
    ensures kept' == Distinct(rows')
  {
    if adds {
      DistinctMore(rows, x);
    }
  }

  /** Whether the last event of evs is kept, and what it adds to the rows that got to goal. */
  lemma LastCounts(goal: Outcome, goal': Outcome, init: seq<Event>, ev: Event, evs: seq<Event>, kept: seq<Event>,
                   kept': seq<Event>, keeps: bool)
    requires evs == init + [ev] && kept' == (if keeps then kept + [ev] else kept)
    requires RowsBy(goal', kept) == Distinct(RowsBy(goal, init))
    requires ev.Deliver? && GotTo(ev.outcome, goal) ==> GotTo(ev.outcome, goal') && (keeps <==> ev.row !in RowsBy(goal, init))
    requires ev.Deliver? && !GotTo(ev.outcome, goal) && keeps ==> !GotTo(ev.outcome, goal')
    ensures RowsBy(goal', kept') == Distinct(RowsBy(goal, evs))
  {
    RowsByMore(goal, init, ev);
    RowsByMore(goal', kept, ev);
    if ev.Deliver? {
      DistinctStep(RowsBy(goal, init), RowsBy(goal, evs), RowsBy(goal', kept), RowsBy(goal', kept'), GotTo(ev.outcome, goal), ev.row);
    }
  }

  /** Dropping what brings nothing new keeps each stored row once, in the order of the first delivery that stored it. */
  lemma {:induction false} FirstDeliveriesAreDistinct(evs: seq<Event>)
    ensures RowsBy(Stored, FirstDeliveries(evs)) == Distinct(RowsBy(Stored, evs))
  {
    if evs != [] {
      var init, last := evs[..|evs| - 1], evs[|evs| - 1];
      FirstDeliveriesAreDistinct(init);
      assert evs == init + [last];
      if last.Deliver? {
        TraceTells(init, last.row);
        RowsToTell(Trace(init), last.row);
      }
      LastCounts(Stored, Stored, init, last, evs, FirstDeliveries(init), FirstDeliveries(evs),
                 !BringsNothing(init, last));
    }
  }

  /** Dropping what comes too late leaves one delivery of each row that reached its lead, in the order they first did. */
  lemma {:induction false} FirstReachedAreDistinct(evs: seq<Event>)
    ensures RowsBy(Refused, FirstReached(evs)) == Distinct(RowsBy(LeadOnly, evs))
  {
    if evs != [] {
      var init, last := evs[..|evs| - 1], evs[|evs| - 1];
      FirstReachedAreDistinct(init);
      assert evs == init + [last];
      if last.Deliver? {
        TraceTells(init, last.row);
        RowsToTell(Trace(init), last.row);
      }
      LastCounts(LeadOnly, Refused, init, last, evs, FirstReached(init), FirstReached(evs), !TooLate(init, last));
    }
  }

  // ---- when an acked row is in the store ----

  predicate About(p: Capture, email: string) {
    Truthy(p.email) && Lower(p.email.value) == email
  }

  ghost predicate FieldBacked(payload: nat -> Capture, ds: seq<Delivered>, email: string, f: Field) {
    exists x :: WasReached(ds, x) && About(payload(x), email) && Truthy(At(payload(x).fields, f))
  }

  ghost predicate RankBacked(payload: nat -> Capture, ds: seq<Delivered>, email: string, rank: int) {
    exists x :: WasReached(ds, x) && About(payload(x), email) && Rank(payload(x).band) >= rank
  }

  ghost predicate JobBacked(payload: nat -> Capture, ds: seq<Delivered>, email: string, job: int) {
    exists x :: WasStored(ds, x) && About(payload(x), email) && payload(x).jobId == job
  }

  /**
   The deliveries vouch for capture p: one that was stored is about its address and job, and those that
   reached the lead bring each of its fields and a band as high.
   */
  ghost predicate Vouched(payload: nat -> Capture, ds: seq<Delivered>, p: Capture) {
    Truthy(p.email) ==>
      var email := Lower(p.email.value);
      && JobBacked(payload, ds, email, p.jobId)
      && (forall f :: f in ALL_FIELDS && Truthy(p.fields[f]) ==> FieldBacked(payload, ds, email, f))
      && (Truthy(p.band) && Rank(p.band) >= 0 ==> RankBacked(payload, ds, email, Rank(p.band)))
  }

  /** Every store that sees these deliveries, whatever it held before and whatever else but edits happens, ends with p in it. */
  ghost predicate AlwaysAbsorbed(payload: nat -> Capture, ds: seq<Delivered>, p: Capture) {
    forall w: Weights, s: Store, evs: seq<Event> :: Trace(evs) == ds && NoEdits(evs) ==> Absorbs(Play(w, s, payload, evs), p)
  }

  lemma FieldArrives(payload: nat -> Capture, w: Weights, s: Store, evs: seq<Event>, email: string, f: Field)
    requires NoEdits(evs) && f in ALL_FIELDS && FieldBacked(payload, Trace(evs), email, f)
    ensures email in Play(w, s, payload, evs).leads && Truthy(Play(w, s, payload, evs).leads[email].fields[f])
  {
    var y :| WasReached(Trace(evs), y) && About(payload(y), email) && Truthy(At(payload(y).fields, f));
    TraceTells(evs, y);
    DeliveredIsAbsorbed(w, s, payload, evs, y);
  }

  lemma RankArrives(payload: nat -> Capture, w: Weights, s: Store, evs: seq<Event>, email: string, rank: int)
    requires NoEdits(evs) && rank >= 0 && RankBacked(payload, Trace(evs), email, rank)
    ensures email in Play(w, s, payload, evs).leads && Rank(Play(w, s, payload, evs).leads[email].band) >= rank
  {
    var y :| WasReached(Trace(evs), y) && About(payload(y), email) && Rank(payload(y).band) >= rank;
    TraceTells(evs, y);
    DeliveredIsAbsorbed(w, s, payload, evs, y);
  }

  lemma VouchedIsAbsorbed(payload: nat -> Capture, p: Capture, w: Weights, s: Store, evs: seq<Event>)
    requires Vouched(payload, Trace(evs), p) && NoEdits(evs)
    ensures Absorbs(Play(w, s, payload, evs), p)
  {
    if Truthy(p.email) {
      var email, last := Lower(p.email.value), Play(w, s, payload, evs);
      var x :| WasStored(Trace(evs), x) && About(payload(x), email) && payload(x).jobId == p.jobId;
      TraceTells(evs, x);
      DeliveredIsAbsorbed(w, s, payload, evs, x);
      forall f | f in ALL_FIELDS && Truthy(p.fields[f]) ensures Truthy(last.leads[email].fields[f]) {
        FieldArrives(payload, w, s, evs, email, f);
      }
      if Truthy(p.band) && Rank(p.band) >= 0 {
        RankArrives(payload, w, s, evs, email, Rank(p.band));
      }
    }
  }

  /** All the lead of an address says goes back to deliveries. */
  ghost predicate LeadBacked(payload: nat -> Capture, ds: seq<Delivered>, email: string, lead: Lead) {
    && (forall f :: f in ALL_FIELDS && Truthy(lead.fields[f]) ==> FieldBacked(payload, ds, email, f))
    && (Rank(lead.band) >= 0 ==> RankBacked(payload, ds, email, Rank(lead.band)))
  }

  ghost predicate LeadsBacked(s: Store, payload: nat -> Capture, ds: seq<Delivered>) {
    forall e :: e in s.leads ==> LeadBacked(payload, ds, e, s.leads[e])
  }

  ghost predicate OccurrencesBacked(s: Store, payload: nat -> Capture, ds: seq<Delivered>) {
    forall k :: k in s.occurrences ==>
      exists e :: e in s.leads && s.leads[e].id == k.0 && JobBacked(payload, ds, e, k.1)
  }

  ghost predicate IdsApart(s: Store) {
    && (forall e :: e in s.leads ==> s.leads[e].id < s.nextId)
    && (forall d, e :: d in s.leads && e in s.leads && s.leads[d].id == s.leads[e].id ==> d == e)
  }

  lemma MoreBacks(payload: nat -> Capture, ds: seq<Delivered>, d: Delivered, e: string)
    ensures forall f :: FieldBacked(payload, ds, e, f) ==> FieldBacked(payload, ds + [d], e, f)
    ensures forall r :: RankBacked(payload, ds, e, r) ==> RankBacked(payload, ds + [d], e, r)
    ensures forall job :: JobBacked(payload, ds, e, job) ==> JobBacked(payload, ds + [d], e, job)
  {
    var more := ds + [d];
    OneMoreDelivery(ds, d);
    forall f | FieldBacked(payload, ds, e, f) ensures FieldBacked(payload, more, e, f) {
      var x :| WasReached(ds, x) && About(payload(x), e) && Truthy(At(payload(x).fields, f));
      assert WasReached(more, x);
    }
    forall r | RankBacked(payload, ds, e, r) ensures RankBacked(payload, more, e, r) {
      var x :| WasReached(ds, x) && About(payload(x), e) && Rank(payload(x).band) >= r;
      assert WasReached(more, x);
    }
    forall job | JobBacked(payload, ds, e, job) ensures JobBacked(payload, more, e, job) {
      var x :| WasStored(ds, x) && About(payload(x), e) && payload(x).jobId == job;
      assert WasStored(more, x);
    }
  }

  lemma BackedOn(s: Store, payload: nat -> Capture, ds: seq<Delivered>, d: Delivered)
    requires LeadsBacked(s, payload, ds) && OccurrencesBacked(s, payload, ds)
    ensures LeadsBacked(s, payload, ds + [d]) && OccurrencesBacked(s, payload, ds + [d])
  {
    forall e | e in s.leads ensures LeadBacked(payload, ds + [d], e, s.leads[e]) {
      MoreBacks(payload, ds, d, e);
    }
    forall k | k in s.occurrences
      ensures exists e :: e in s.leads && s.leads[e].id == k.0 && JobBacked(payload, ds + [d], e, k.1)
    {
      var e :| e in s.leads && s.leads[e].id == k.0 && JobBacked(payload, ds, e, k.1);
      MoreBacks(payload, ds, d, e);
    }
  }

  const NOWHERE := Attribution(None, None)

  /** A row that reached the lead backs everything its capture says. */
  lemma ReachedBacks(payload: nat -> Capture, ds: seq<Delivered>, x: nat, email: string)
    requires WasReached(ds, x) && About(payload(x), email)
    ensures forall f :: f in ALL_FIELDS && Truthy(payload(x).fields[f]) ==> FieldBacked(payload, ds, email, f)
    ensures RankBacked(payload, ds, email, Rank(payload(x).band))
  {
    forall f | f in ALL_FIELDS && Truthy(payload(x).fields[f]) ensures FieldBacked(payload, ds, email, f) {
      assert Truthy(At(payload(x).fields, f));
    }
  }

  lemma EnrichedBacked(w: Weights, email: string, lead: Lead, payload: nat -> Capture, ds: seq<Delivered>, x: nat)
    requires LeadBacked(payload, ds, email, lead) && WasReached(ds, x) && About(payload(x), email)
    ensures LeadBacked(payload, ds, email, Enriched(w, email, lead, payload(x)))
  {
    ReachedBacks(payload, ds, x, email);
  }

  lemma LeadSaveBacked(w: Weights, s: Store, payload: nat -> Capture, ds: seq<Delivered>, x: nat)
    requires LeadsBacked(s, payload, ds) && WasReached(ds, x)
    ensures LeadsBacked(LeadSaved(w, s, payload(x), NOWHERE), payload, ds)
  {
    var p := payload(x);
    if Truthy(p.email) {
      var email := Lower(p.email.value);
      ReachedBacks(payload, ds, x, email);
      if email in s.leads {
        EnrichedBacked(w, email, s.leads[email], payload, ds, x);
      }
    }
  }

  /** A lead's part of a save keeps occurrences and ids, and gives a new lead the next id. */
  lemma LeadSaveKeepsIds(w: Weights, s: Store, p: Capture)
    requires IdsApart(s)
    ensures var s' := LeadSaved(w, s, p, NOWHERE);
            && s'.occurrences == s.occurrences && s'.nextId >= s.nextId
            && (forall e :: e in s.leads ==> e in s'.leads && s'.leads[e].id == s.leads[e].id)
            && (forall e :: e in s'.leads && e !in s.leads ==> About(p, e) && s'.leads[e].id == s.nextId < s'.nextId)
  {
  }

  lemma IdsStayApart(s: Store, s': Store, p: Capture)
    requires IdsApart(s) && s'.nextId >= s.nextId
    requires forall e :: e in s.leads ==> e in s'.leads && s'.leads[e].id == s.leads[e].id
    requires forall e :: e in s'.leads && e !in s.leads ==> About(p, e) && s'.leads[e].id == s.nextId < s'.nextId
    ensures IdsApart(s')
  {
  }

  lemma OccurrencesKept(s: Store, s': Store, payload: nat -> Capture, ds: seq<Delivered>)
    requires OccurrencesBacked(s, payload, ds) && s'.occurrences == s.occurrences
    requires forall e :: e in s.leads ==> e in s'.leads && s'.leads[e].id == s.leads[e].id
    ensures OccurrencesBacked(s', payload, ds)
  {
    forall k | k in s'.occurrences ensures exists e :: e in s'.leads && s'.leads[e].id == k.0 && JobBacked(payload, ds, e, k.1) {
      var e :| e in s.leads && s.leads[e].id == k.0 && JobBacked(payload, ds, e, k.1);
      assert e in s'.leads && s'.leads[e].id == k.0;
    }
  }

  /** The lead's part of a save. */
  lemma LeadPartBacked(w: Weights, s: Store, payload: nat -> Capture, ds: seq<Delivered>, x: nat)
    requires LeadsBacked(s, payload, ds) && OccurrencesBacked(s, payload, ds) && IdsApart(s) && WasReached(ds, x)
    ensures var s' := LeadSaved(w, s, payload(x), NOWHERE);
            LeadsBacked(s', payload, ds) && OccurrencesBacked(s', payload, ds) && IdsApart(s')
  {
    LeadSaveBacked(w, s, payload, ds, x);
    LeadSaveKeepsIds(w, s, payload(x));
    IdsStayApart(s, LeadSaved(w, s, payload(x), NOWHERE), payload(x));
    OccurrencesKept(s, LeadSaved(w, s, payload(x), NOWHERE), payload, ds);
  }

  lemma RecordedBacked(s: Store, payload: nat -> Capture, ds: seq<Delivered>, x: nat, email: string, o: Occurrence)
    requires LeadsBacked(s, payload, ds) && OccurrencesBacked(s, payload, ds) && IdsApart(s)
    requires WasStored(ds, x) && About(payload(x), email) && email in s.leads
    ensures var t := Recorded(s, s.leads[email].id, payload(x).jobId, o);
            LeadsBacked(t, payload, ds) && OccurrencesBacked(t, payload, ds) && IdsApart(t)
  {
    var t := Recorded(s, s.leads[email].id, payload(x).jobId, o);
    assert JobBacked(payload, ds, email, payload(x).jobId);
    forall k | k in t.occurrences ensures exists e :: e in t.leads && t.leads[e].id == k.0 && JobBacked(payload, ds, e, k.1) {
      if k in s.occurrences {
        var e :| e in s.leads && s.leads[e].id == k.0 && JobBacked(payload, ds, e, k.1);
        assert e in t.leads && t.leads[e].id == k.0;
      } else {
        assert email in t.leads && t.leads[email].id == k.0;
      }
    }
  }

  lemma SaveBacked(w: Weights, s: Store, payload: nat -> Capture, ds: seq<Delivered>, x: nat)
    requires LeadsBacked(s, payload, ds) && OccurrencesBacked(s, payload, ds) && IdsApart(s) && WasStored(ds, x)
    ensures var s' := Saved(w, s, payload(x), None, NOWHERE);
            LeadsBacked(s', payload, ds) && OccurrencesBacked(s', payload, ds) && IdsApart(s')
  {
    assert WasReached(ds, x);
    var p := payload(x);
    LeadPartBacked(w, s, payload, ds, x);
    if Truthy(p.email) {
      RecordedBacked(LeadSaved(w, s, p, NOWHERE), payload, ds, x, Lower(p.email.value), Occurrence(p.sourceUrl, None));
    }
  }

  /** A store that sees these deliveries and nothing else. */
  function Bare(ds: seq<Delivered>): seq<Event> {
    seq(|ds|, i requires 0 <= i < |ds| => Deliver(ds[i].row, None, NOWHERE, ds[i].outcome))
  }

  const EMPTY := Store(map[], map[], 0)

  lemma {:induction false} BareTrace(ds: seq<Delivered>)
    ensures Trace(Bare(ds)) == ds && NoEdits(Bare(ds))
  {
    if ds != [] {
      var init := ds[..|ds| - 1];
      BareTrace(init);
      assert Bare(ds)[..|ds| - 1] == Bare(init);
      assert ds == init + [ds[|ds| - 1]];
    }
  }

  lemma {:induction false} BarePlayIsBacked(w: Weights, payload: nat -> Capture, ds: seq<Delivered>)
    ensures var s := Play(w, EMPTY, payload, Bare(ds));
            LeadsBacked(s, payload, ds) && OccurrencesBacked(s, payload, ds) && IdsApart(s)
  {
    if ds != [] {
      var init, last := ds[..|ds| - 1], ds[|ds| - 1];
      var s := Play(w, EMPTY, payload, Bare(init));
      BarePlayIsBacked(w, payload, init);
      assert Bare(ds)[..|ds| - 1] == Bare(init);
      assert ds == init + [last];
      BackedOn(s, payload, init, last);
      OneMoreDelivery(init, last);
      match last.outcome
      case Refused =>
      case LeadOnly =>
        LeadPartBacked(w, s, payload, ds, last.row);
      case Stored => SaveBacked(w, s, payload, ds, last.row);
    }
  }

  lemma AbsorbedIsVouched(s: Store, payload: nat -> Capture, ds: seq<Delivered>, p: Capture)
    requires LeadsBacked(s, payload, ds) && OccurrencesBacked(s, payload, ds) && IdsApart(s) && Absorbs(s, p)
    ensures Vouched(payload, ds, p)
  {
    if Truthy(p.email) {
      var email := Lower(p.email.value);
      var e :| e in s.leads && s.leads[e].id == s.leads[email].id && JobBacked(payload, ds, e, p.jobId);
      assert e == email;
      if Truthy(p.band) && Rank(p.band) >= 0 {
        var y :| WasReached(ds, y) && About(payload(y), email) && Rank(payload(y).band) >= Rank(s.leads[email].band);
        assert Rank(payload(y).band) >= Rank(p.band);
      }
    }
  }

  /** A capture is in the store whatever the run exactly when the deliveries vouch for it. */
  lemma AbsorbedExactlyWhenVouched(payload: nat -> Capture, ds: seq<Delivered>, p: Capture)
    ensures AlwaysAbsorbed(payload, ds, p) <==> Vouched(payload, ds, p)
  {
    if Vouched(payload, ds, p) {
      forall w: Weights, s: Store, evs: seq<Event> | Trace(evs) == ds && NoEdits(evs) ensures Absorbs(Play(w, s, payload, evs), p) {
        VouchedIsAbsorbed(payload, p, w, s, evs);
      }
    }
    if AlwaysAbsorbed(payload, ds, p) {
      var w := Weights(0, 0, 0, 0, 0);
      BareTrace(ds);
      BarePlayIsBacked(w, payload, ds);
      AbsorbedIsVouched(Play(w, EMPTY, payload, Bare(ds)), payload, ds, p);
    }
  }

  // ---- end to end ----

  /** The cloud writes the job of the URL into every item. */
  ghost function PayloadOf(w: World, id: nat): Capture
    requires id in w.ledger.enqueued
  {
    w.ledger.enqueued[id].payload.(jobId := w.job)
  }

  /** The payloads a run delivers. */
  ghost predicate Payloads(w: World, payload: nat -> Capture) {
    forall row :: row in w.ledger.enqueued ==> payload(row) == PayloadOf(w, row)
  }

  lemma StoredIsVouched(payload: nat -> Capture, ds: seq<Delivered>, row: nat)
    requires WasStored(ds, row)
    ensures Vouched(payload, ds, payload(row))
  {
    var p := payload(row);
    assert WasReached(ds, row);
    if Truthy(p.email) {
      assert About(payload(row), Lower(p.email.value));
    }
  }

  /**
   What the store holds depends on each row once: the leads on its first delivery that reached them, the
   occurrences on its first that was stored.
   */
  ghost predicate OnceInEffect(w: Weights, s: Store, payload: nat -> Capture, evs: seq<Event>) {
    var all, once := Play(w, s, payload, evs), Play(w, s, payload, FirstReached(evs));
    && all.leads == once.leads && all.nextId == once.nextId
    && all.occurrences == Recordings(all.leads, payload, s.occurrences, FirstDeliveries(evs))
  }

  lemma StoreIsOnceInEffect(w: Weights, s: Store, payload: nat -> Capture, evs: seq<Event>)
    requires NoEdits(evs)
    ensures OnceInEffect(w, s, payload, evs)
  {
    EachRowCountsOnce(w, s, payload, evs);
    ReplaysAreAbsorbed(w, s, payload, evs);
    OccurrencesAreRecorded(w, s, payload, FirstDeliveries(evs), Play(w, s, payload, evs).leads);
  }

  /**
   When the store sees the run's deliveries, mixed in any way with uploads, recomputations and captures of
   other jobs but no edits, its leads are as if each row that reached its lead had been delivered once, at
   the first delivery that did; and its occurrences are those recorded when each stored row was delivered
   once, at the first delivery that stored it whole. The two orders can differ: see HalfWayCounts. An acked
   row was processed; it is in every such store exactly when the deliveries vouch for it, as they do when
   one of its own was stored.
   */
  lemma DeliveredOnceInEffect(w: World, run: seq<Action>, weights: Weights, s: Store, payload: nat -> Capture,
                              evs: seq<Event>, id: nat)
    requires Fresh(w) && Runs(w, run) && Payloads(After(w, run), payload)
    requires Trace(evs) == After(w, run).deliveries && NoEdits(evs)
    requires id in After(w, run).ledger.acked
    ensures OnceInEffect(weights, s, payload, evs)
    ensures var ds := After(w, run).deliveries;
            && RowsBy(Refused, FirstReached(evs)) == Distinct(RowsTo(LeadOnly, ds))
            && RowsBy(Stored, FirstDeliveries(evs)) == Distinct(RowsTo(Stored, ds))
            && WasProcessed(ds, id) && id in After(w, run).ledger.enqueued
            && (AlwaysAbsorbed(payload, ds, PayloadOf(After(w, run), id)) <==> Vouched(payload, ds, PayloadOf(After(w, run), id)))
            && (WasStored(ds, id) ==> Vouched(payload, ds, PayloadOf(After(w, run), id)))
            && (WasStored(ds, id) ==> Absorbs(Play(weights, s, payload, evs), PayloadOf(After(w, run), id)))
  {
    FreshStart(w);
    RunBalances(w, run);
    StoreIsOnceInEffect(weights, s, payload, evs);
    FirstReachedAreDistinct(evs);
    FirstDeliveriesAreDistinct(evs);
    AbsorbedExactlyWhenVouched(payload, After(w, run).deliveries, PayloadOf(After(w, run), id));
    if WasStored(After(w, run).deliveries, id) {
      StoredIsVouched(payload, After(w, run).deliveries, id);
      TraceTells(evs, id);
      DeliveredIsAbsorbed(weights, s, payload, evs, id);
    }
  }

  // ---- acked and lost ----

  function SomeCapture(): Capture {
    Capture(1, Some("a"),
            map[PersonName := None, Designation := None, Department := None, SourceTitle := None,
                ContextSnippet := None, Phone := None, EntityKind := None],
            "u", None, None, None, false, 0)
  }

  function OneFlusher(): World {
    World(1, Ledger(Table(map[], [], 0), map[], map[], {}, []), [Flusher.Idle], [], [])
  }

  function LosingRun(): seq<Action> {
    [Enqueue(SomeCapture()), Read(0, [Entry(0, 1, SomeCapture())]), Post(0), Process(0, Refused), Accept(0, 0)]
  }

  /** The world after the first n actions of the losing run. */
  function LosingWorld(n: nat): World {
    var c, batch := SomeCapture(), [Entry(0, 1, SomeCapture())];
    var queued := Queued(OneFlusher().ledger, 1, c);
    if n == 0 then OneFlusher()
    else if n == 1 then World(1, queued, [Flusher.Idle], [], [])
    else if n == 2 then World(1, queued, [Waiting(batch, {})], [], [])
    else if n == 3 then World(1, queued, [Waiting(batch, {0})], [Request(batch, 0)], [])
    else if n == 4 then World(1, queued, [Waiting(batch, {0})], [Request(batch, 1)], [Delivered(0, Refused)])
    else World(1, Acknowledged(queued, {0}), [Flusher.Idle], [Request(batch, 1)], [Delivered(0, Refused)])
  }

  lemma LosingStep(n: nat)
    requires n < 5
    ensures Possible(LosingWorld(n), LosingRun()[n]) && Next(LosingWorld(n), LosingRun()[n]) == LosingWorld(n + 1)
  {
    var batch, w := [Entry(0, 1, SomeCapture())], LosingWorld(n);
    assert IdsOf(batch) == {0} by {
      assert batch[0].id == 0;
    }
    if n == 2 {
      assert w.flushers[0].posted + {|w.requests|} == {0};
    }
  }

  lemma {:induction false} LosingPrefix(n: nat)
    requires n <= 5
    ensures Runs(OneFlusher(), LosingRun()[..n]) && After(OneFlusher(), LosingRun()[..n]) == LosingWorld(n)
  {
    if n > 0 {
      LosingPrefix(n - 1);
      LosingStep(n - 1);
      var prefix := LosingRun()[..n];
      assert prefix[..|prefix| - 1] == LosingRun()[..n - 1] && prefix[|prefix| - 1] == LosingRun()[n - 1];
    }
  }

  /**
   A save that raises is reported per item while the request succeeds, so the row is acked and gone: a run
   after which the outbox is drained, the row is acked, and the store has never heard of it.
   */
  lemma AckedAndLost(weights: Weights)
    ensures Fresh(OneFlusher()) && Runs(OneFlusher(), LosingRun())
    ensures var last := After(OneFlusher(), LosingRun());
            && 0 in last.ledger.acked && Drained(last.ledger.table, last.job) && WasProcessed(last.deliveries, 0)
            && (forall payload: nat -> Capture :: Play(weights, EMPTY, payload, Bare(last.deliveries)) == EMPTY)
            && !Absorbs(EMPTY, SomeCapture())
  {
    LosingPrefix(5);
    assert LosingRun()[..5] == LosingRun();
    var ds := [Delivered(0, Refused)];
    assert ds[0].row == 0;
    forall payload: nat -> Capture ensures Play(weights, EMPTY, payload, Bare(ds)) == EMPTY {
      assert Bare(ds)[..0] == [];
    }
  }

  // ---- a delivery that failed half-way counts for the lead ----

  function Named(name: string): Capture {
    SomeCapture().(fields := SomeCapture().fields[PersonName := Some(name)])
  }

  /** Two rows about one address; the first of them fails half-way, and is stored after the second. */
  function HalfWay(): seq<Event> {
    [Deliver(0, None, NOWHERE, LeadOnly), Deliver(1, None, NOWHERE, Stored), Deliver(0, None, NOWHERE, Stored)]
  }

  function Payload(row: nat): Capture {
    Named(if row == 0 then "A" else "B")
  }

  lemma ThreeRows(x: Event, y: Event, z: Event)
    requires x.Deliver? && y.Deliver? && z.Deliver? && x.outcome.LeadOnly? && y.outcome.Stored? && z.outcome.Stored?
    ensures RowsBy(Stored, [x, y, z]) == [y.row, z.row] == RowsBy(Stored, [y, z])
  {
    assert [x, y, z] == (([] + [x]) + [y]) + [z];
    assert [y, z] == ([] + [y]) + [z];
    RowsByMore(Stored, [], x);
    RowsByMore(Stored, [] + [x], y);
    RowsByMore(Stored, [] + [x] + [y], z);
    RowsByMore(Stored, [], y);
    RowsByMore(Stored, [] + [y], z);
  }

  lemma PlayMore(w: Weights, s: Store, payload: nat -> Capture, evs: seq<Event>, ev: Event)
    ensures Play(w, s, payload, evs + [ev]) == Effect(w, Play(w, s, payload, evs), payload, ev)
  {
    assert (evs + [ev])[..|evs|] == evs;
  }

  /** The first capture of an address in an empty store names the lead for good. */
  lemma NamedFirst(w: Weights, s: Store, name: string, ev: Event)
    requires s.leads == map[] && name != "" && ev.Deliver? && !ev.outcome.Refused? && ev.attr == NOWHERE
    requires Payload(ev.row).fields[PersonName] == Some(name)
    ensures var s' := Effect(w, s, Payload, ev);
            "a" in s'.leads && s'.leads["a"].fields[PersonName] == Some(name)
  {
    assert Lower("a") == "a";
  }

  lemma NamedStays(w: Weights, s: Store, name: string, ev: Event)
    requires "a" in s.leads && s.leads["a"].fields[PersonName] == Some(name) && name != "" && ev.Deliver?
    ensures var s' := Effect(w, s, Payload, ev);
            "a" in s'.leads && s'.leads["a"].fields[PersonName] == Some(name)
  {
    assert Lower("a") == "a";
  }

  lemma {:induction false} FirstNameStays(w: Weights, name: string, first: Event, rest: seq<Event>)
    requires name != "" && first.Deliver? && !first.outcome.Refused? && first.attr == NOWHERE
    requires Payload(first.row).fields[PersonName] == Some(name) && forall ev :: ev in rest ==> ev.Deliver?
    ensures var s := Play(w, EMPTY, Payload, [first] + rest);
            "a" in s.leads && s.leads["a"].fields[PersonName] == Some(name)
  {
    if rest == [] {
      assert [first] + rest == [] + [first];
      PlayMore(w, EMPTY, Payload, [], first);
      NamedFirst(w, EMPTY, name, first);
    } else {
      var init, last := [first] + rest[..|rest| - 1], rest[|rest| - 1];
      FirstNameStays(w, name, first, rest[..|rest| - 1]);
      assert [first] + rest == init + [last];
      PlayMore(w, EMPTY, Payload, init, last);
      NamedStays(w, Play(w, EMPTY, Payload, init), name, last);
    }
  }

  /** Row 1 is stored first, yet the name is row 0's: storing each row once, in that order, would keep row 1's. */
  lemma HalfWayCounts(w: Weights)
    ensures NoEdits(HalfWay()) && RowsBy(Stored, HalfWay()) == [1, 0] == RowsBy(Stored, HalfWay()[1..])
    ensures var run, stored := Play(w, EMPTY, Payload, HalfWay()), Play(w, EMPTY, Payload, HalfWay()[1..]);
            && "a" in run.leads && run.leads["a"].fields[PersonName] == Some("A")
            && "a" in stored.leads && stored.leads["a"].fields[PersonName] == Some("B")
  {
    var x, y, z := HalfWay()[0], HalfWay()[1], HalfWay()[2];
    assert HalfWay()[1..] == [y, z] == [y] + [z] && HalfWay() == [x] + [y, z];
    ThreeRows(x, y, z);
    FirstNameStays(w, "A", x, [y, z]);
    FirstNameStays(w, "B", y, [z]);
  }
}
