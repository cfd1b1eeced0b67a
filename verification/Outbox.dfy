/**
 The durable local outbox of a crawl job and its at-least-once delivery to the cloud,
 with several flushers running at once. One locked outbox call is one step.
 */
module Outbox {
  import opened Prelude
  import opened LeadStore

  const MAX_ATTEMPTS: nat := 8
  const BATCH_SIZE: nat := 100

  datatype Row = Row(job: int, kind: string, payload: Capture, attempts: nat)

  datatype DeadRow = DeadRow(job: int, kind: string, payload: Capture)

  /** One item of a batch read from the outbox. */
  datatype Entry = Entry(id: nat, job: int, payload: Capture)

  /** The two tables of the file; ids are never reused. */
  datatype Table = Table(rows: map<nat, Row>, dead: seq<DeadRow>, next: nat)

  ghost predicate TableOk(t: Table) {
    forall id :: id in t.rows ==> id < t.next && t.rows[id].attempts < MAX_ATTEMPTS
  }

  function Enqueued(t: Table, job: int, kind: string, payload: Capture): Table {
    t.(rows := t.rows[t.next := Row(job, kind, payload, 0)], next := t.next + 1)
  }

  function IdsOf(batch: seq<Entry>): set<nat> {
    set i | 0 <= i < |batch| :: batch[i].id
  }

  lemma IdsOfMore(batch: seq<Entry>, e: Entry)
    ensures IdsOf(batch + [e]) == IdsOf(batch) + {e.id}
  {
    var more := batch + [e];
    assert more[|batch|] == e;
    forall id | id in IdsOf(batch) ensures id in IdsOf(more) {
      var i :| 0 <= i < |batch| && batch[i].id == id;
      assert more[i].id == id;
    }
  }

  lemma AckedIds(batch: seq<Entry>, ids: seq<nat>)
    requires |ids| == |batch| && forall i :: 0 <= i < |ids| ==> ids[i] == batch[i].id
    ensures (set i | 0 <= i < |ids| :: ids[i]) == IdsOf(batch)
  {
  }

  function AckedAll(t: Table, ids: set<nat>): Table {
    t.(rows := t.rows - ids)
  }

  /** One failed delivery: a row that reaches the limit moves to the dead table; a missing row counts from zero. */
  function Failed(t: Table, e: Entry, kind: string): Table {
    var attempts := (if e.id in t.rows then t.rows[e.id].attempts else 0) + 1;
    if attempts >= MAX_ATTEMPTS then
      t.(rows := t.rows - {e.id}, dead := t.dead + [DeadRow(e.job, kind, e.payload)])
    else if e.id in t.rows then
      t.(rows := t.rows[e.id := t.rows[e.id].(attempts := attempts)])
    else
      t
  }

  function FailedAll(t: Table, batch: seq<Entry>, kind: string): Table {
    if batch == [] then t else Failed(FailedAll(t, batch[..|batch| - 1], kind), batch[|batch| - 1], kind)
  }

  ghost predicate Drained(t: Table, job: int) {
    forall id :: id in t.rows ==> t.rows[id].job != job
  }

  ghost predicate Reads(t: Table, kind: string, e: Entry) {
    e.id in t.rows && t.rows[e.id].kind == kind && t.rows[e.id].job == e.job && t.rows[e.id].payload == e.payload
  }

  /** The oldest rows of a kind, oldest first, at most limit of them and none left out before the limit. */
  ghost predicate IsBatch(t: Table, kind: string, limit: nat, batch: seq<Entry>) {
    && |batch| <= limit
    && (forall i :: 0 <= i < |batch| ==> Reads(t, kind, batch[i]))
    && (forall i, j :: 0 <= i < j < |batch| ==> batch[i].id < batch[j].id)
    && (forall id :: id in t.rows && t.rows[id].kind == kind && id !in IdsOf(batch) ==>
          |batch| == limit && forall i :: 0 <= i < |batch| ==> batch[i].id < id)
  }

  // ---- every flush makes progress ----

  /** The failures a row can still take. */
  function Left(rows: map<nat, Row>, id: nat): nat {
    if id in rows then Remaining(rows[id].attempts) else 0
  }

  function Remaining(attempts: nat): nat {
    if attempts < MAX_ATTEMPTS then MAX_ATTEMPTS - attempts else 0
  }

  /** The failures all rows below n can still take. */
  function Budget(rows: map<nat, Row>, n: nat): nat {
    if n == 0 then 0 else Budget(rows, n - 1) + Left(rows, n - 1)
  }

  lemma {:induction false} BudgetShrinks(a: map<nat, Row>, b: map<nat, Row>, n: nat)
    requires forall id: nat :: id < n ==> Left(b, id) <= Left(a, id)
    ensures Budget(b, n) <= Budget(a, n)
    ensures (exists id: nat :: id < n && Left(b, id) < Left(a, id)) ==> Budget(b, n) < Budget(a, n)
  {
    if n > 0 {
      BudgetShrinks(a, b, n - 1);
    }
  }

  lemma {:induction false} BudgetHolds(rows: map<nat, Row>, n: nat, id: nat)
    requires id < n
    ensures Left(rows, id) <= Budget(rows, n)
  {
    if id < n - 1 {
      BudgetHolds(rows, n - 1, id);
    }
  }

  /** Only the rows ids change from t to u: each of them still queued gets one attempt closer to the limit. */
  ghost predicate Nudged(t: Table, u: Table, ids: set<nat>) {
    && TableOk(u) && u.next == t.next
    && (forall id :: id in u.rows ==> id in t.rows && u.rows[id].(attempts := 0) == t.rows[id].(attempts := 0))
    && (forall id :: id in t.rows && id !in ids ==> id in u.rows && u.rows[id] == t.rows[id])
    && (forall id :: id in t.rows && id in ids ==> Left(u.rows, id) == Left(t.rows, id) - 1)
  }

  lemma FailedNudges(t: Table, e: Entry, kind: string)
    requires TableOk(t)
    ensures Nudged(t, Failed(t, e, kind), {e.id})
  {
  }

  lemma NudgedAgain(t: Table, u: Table, v: Table, ids: set<nat>, id: nat)
    requires TableOk(t) && Nudged(t, u, ids) && Nudged(u, v, {id}) && id !in ids
    ensures Nudged(t, v, ids + {id})
  {
  }

  lemma {:induction false} FailedAllNudges(t: Table, batch: seq<Entry>, kind: string)
    requires TableOk(t)
    requires forall i, j :: 0 <= i < j < |batch| ==> batch[i].id < batch[j].id
    ensures Nudged(t, FailedAll(t, batch, kind), IdsOf(batch))
  {
    if batch != [] {
      var init, last := batch[..|batch| - 1], batch[|batch| - 1];
      FailedAllNudges(t, init, kind);
      FailedNudges(FailedAll(t, init, kind), last, kind);
      NudgedAgain(t, FailedAll(t, init, kind), FailedAll(t, batch, kind), IdsOf(init), last.id);
      IdsOfMore(init, last);
      assert batch == init + [last];
    }
  }

  lemma AckedShrinks(t: Table, batch: seq<Entry>)
    requires TableOk(t) && forall id :: id in IdsOf(batch) ==> id in t.rows
    ensures TableOk(AckedAll(t, IdsOf(batch)))
    ensures batch != [] ==> Budget(AckedAll(t, IdsOf(batch)).rows, t.next) < Budget(t.rows, t.next)
  {
    if batch != [] {
      assert batch[0].id in IdsOf(batch);
      assert Left(AckedAll(t, IdsOf(batch)).rows, batch[0].id) < Left(t.rows, batch[0].id);
      BudgetShrinks(t.rows, AckedAll(t, IdsOf(batch)).rows, t.next);
    }
  }

  lemma NudgedShrinks(t: Table, u: Table, batch: seq<Entry>)
    requires TableOk(t) && Nudged(t, u, IdsOf(batch)) && forall id :: id in IdsOf(batch) ==> id in t.rows
    ensures batch != [] ==> Budget(u.rows, t.next) < Budget(t.rows, t.next)
  {
    if batch != [] {
      assert batch[0].id in IdsOf(batch);
      assert Left(u.rows, batch[0].id) < Left(t.rows, batch[0].id);
      forall id: nat | id < t.next ensures Left(u.rows, id) <= Left(t.rows, id) {
        if id in t.rows && id in IdsOf(batch) {
          assert Left(u.rows, id) == Left(t.rows, id) - 1;
        }
      }
      BudgetShrinks(t.rows, u.rows, t.next);
    }
  }

  /** Whatever the answer to a batch, the rows can take strictly fewer failures afterwards. */
  lemma BatchMakesProgress(t: Table, u: Table, kind: string, batch: seq<Entry>, accepted: bool)
    requires TableOk(t) && IsBatch(t, kind, BATCH_SIZE, batch)
    requires u == if accepted then AckedAll(t, IdsOf(batch)) else FailedAll(t, batch, kind)
    ensures TableOk(u) && u.next == t.next
    ensures forall id :: id in u.rows ==> id in t.rows && u.rows[id].(attempts := 0) == t.rows[id].(attempts := 0)
    ensures (exists id :: id in t.rows && t.rows[id].kind == kind) ==> Budget(u.rows, u.next) < Budget(t.rows, t.next)
  {
    forall id | id in IdsOf(batch) ensures id in t.rows {
      var i :| 0 <= i < |batch| && batch[i].id == id;
      assert Reads(t, kind, batch[i]);
    }
    if accepted {
      AckedShrinks(t, batch);
    } else {
      FailedAllNudges(t, batch, kind);
      NudgedShrinks(t, u, batch);
    }
  }

  /** The local outbox: each method runs under its lock. */
  class LocalOutbox {
    var rows: map<nat, Row>
    var dead: seq<DeadRow>
    var next: nat

    constructor (t: Table)
      ensures View() == t
    {
      rows, dead, next := t.rows, t.dead, t.next;
    }

    ghost function View(): Table
      reads this
    {
      Table(rows, dead, next)
    }

    /** The new row's id is higher than that of any row there ever was. */
    method Enqueue(job: int, kind: string, payload: Capture)
      requires TableOk(View())
      modifies this
      ensures TableOk(View()) && View() == Enqueued(old(View()), job, kind, payload)
      ensures old(next) !in old(rows) && old(next) in rows && next == old(next) + 1
      ensures forall id :: id in old(rows) ==> id < old(next) && id in rows && rows[id] == old(rows)[id]
    {
      rows := rows[next := Row(job, kind, payload, 0)];
      next := next + 1;
    }

    method PendingBatch(kind: string, limit: nat) returns (batch: seq<Entry>)
      ensures IsBatch(View(), kind, limit, batch)
    {
      batch := [];
      var all := set id | id in rows && rows[id].kind == kind;
      var left := all;
      while left != {} && |batch| < limit
        invariant all == left + IdsOf(batch) && left !! IdsOf(batch) && |batch| <= limit
        invariant forall i :: 0 <= i < |batch| ==> Reads(View(), kind, batch[i])
        invariant forall i, id :: 0 <= i < |batch| && id in left ==> batch[i].id < id
        invariant forall i, j :: 0 <= i < j < |batch| ==> batch[i].id < batch[j].id
        decreases left
      {
        var id := Least(left);
        IdsOfMore(batch, Entry(id, rows[id].job, rows[id].payload));
        batch := batch + [Entry(id, rows[id].job, rows[id].payload)];
        left := left - {id};
      }
    }

    method Ack(ids: seq<nat>)
      modifies `rows
      ensures View() == AckedAll(old(View()), set i | 0 <= i < |ids| :: ids[i])
    {
      var i := 0;
      while i < |ids|
        invariant 0 <= i <= |ids|
        invariant rows == old(rows) - set j | 0 <= j < i :: ids[j]
      {
        rows := rows - {ids[i]};
        i := i + 1;
      }
    }

    method Fail(e: Entry, kind: string)
      modifies `rows, `dead
      ensures View() == Failed(old(View()), e, kind)
      ensures e.id in old(rows) && old(rows)[e.id].attempts < 7 ==>
                rows == old(rows)[e.id := old(rows)[e.id].(attempts := old(rows)[e.id].attempts + 1)] && dead == old(dead)
      ensures e.id in old(rows) && old(rows)[e.id].attempts >= 7 ==>
                rows == old(rows) - {e.id} && dead == old(dead) + [DeadRow(e.job, kind, e.payload)]
      ensures e.id !in old(rows) ==> rows == old(rows) && dead == old(dead)
    {
      var attempts := if e.id in rows then rows[e.id].attempts else 0;
      attempts := attempts + 1;
      if attempts >= MAX_ATTEMPTS {
        dead := dead + [DeadRow(e.job, kind, e.payload)];
        rows := rows - {e.id};
      } else if e.id in rows {
        rows := rows[e.id := rows[e.id].(attempts := attempts)];
      }
    }

    method IsDrained(job: int) returns (drained: bool)
      ensures drained <==> Drained(View(), job)
    {
      var mine := set id | id in rows && rows[id].job == job;
      drained := |mine| == 0;
      if drained {
        assert mine == {};
        assert forall id :: id in rows && rows[id].job == job ==> id in mine;
      } else {
        var id := Member(mine);
      }
    }
  }

  /** The delivering side of one crawl job. */
  class CloudApiClient {
    const job: int
    const outbox: LocalOutbox

    constructor (job: int, outbox: LocalOutbox)
      ensures this.job == job && this.outbox == outbox
    {
      this.job, this.outbox := job, outbox;
    }

    /** Posts one batch; accepted says whether the cloud's answer came back without an error. */
    method FlushKind(kind: string, accepted: bool) returns (flushed: bool)
      requires TableOk(outbox.View())
      modifies outbox`rows, outbox`dead
      ensures TableOk(outbox.View())
      ensures exists batch :: IsBatch(old(outbox.View()), kind, 100, batch) &&
                flushed == (accepted && batch != []) &&
                outbox.View() == if accepted then AckedAll(old(outbox.View()), IdsOf(batch))
                                 else FailedAll(old(outbox.View()), batch, kind)
      ensures (exists id :: id in old(outbox.rows) && old(outbox.rows)[id].kind == kind) ==>
                Budget(outbox.rows, outbox.next) < old(Budget(outbox.rows, outbox.next))
      ensures forall id :: id in outbox.rows ==>
                id in old(outbox.rows) && outbox.rows[id].(attempts := 0) == old(outbox.rows)[id].(attempts := 0)
    {
      var batch := outbox.PendingBatch(kind, BATCH_SIZE);
      ghost var before := outbox.View();
      flushed := false;
      if batch == [] {
        assert AckedAll(before, IdsOf(batch)) == before;
      } else if accepted {
        var ids := seq(|batch|, i requires 0 <= i < |batch| => batch[i].id);
        outbox.Ack(ids);
        AckedIds(batch, ids);
        flushed := true;
      } else {
        var i := 0;
        while i < |batch|
          invariant 0 <= i <= |batch| && outbox.View() == FailedAll(before, batch[..i], kind)
        {
          assert batch[..i + 1][..i] == batch[..i];
          outbox.Fail(batch[i], kind);
          i := i + 1;
        }
        assert batch[..i] == batch;
      }
      BatchMakesProgress(before, outbox.View(), kind, batch, accepted);
    }

    /**
     Flushes until the job's rows are gone or the deadline passes; answers holds the outcome of
     each flush the deadline leaves room for.
     */
    method DrainBeforeFinish(answers: seq<bool>) returns (drained: bool)
      requires TableOk(outbox.View())
      requires forall id :: id in outbox.rows ==> outbox.rows[id].kind == "lead"
      modifies outbox`rows, outbox`dead
      ensures drained <==> Drained(outbox.View(), job)
      ensures Budget(old(outbox.rows), old(outbox.next)) <= |answers| ==> drained
    {
      var i := 0;
      drained := outbox.IsDrained(job);
      while !drained && i < |answers|
        invariant 0 <= i <= |answers| && TableOk(outbox.View()) && outbox.next == old(outbox.next)
        invariant drained <==> Drained(outbox.View(), job)
        invariant forall id :: id in outbox.rows ==> outbox.rows[id].kind == "lead"
        invariant Budget(outbox.rows, outbox.next) + i <= Budget(old(outbox.rows), old(outbox.next))
      {
        var _ := FlushKind("lead", answers[i]);
        i := i + 1;
        drained := outbox.IsDrained(job);
      }
      if !drained {
        var id :| id in outbox.rows && outbox.rows[id].job == job;
        BudgetHolds(outbox.rows, outbox.next, id);
      }
    }
  }
}
