/**
 At-least-once delivery as a protocol: any number of flushers share one outbox, answers get
 lost, the cloud may stop in the middle of a batch, and the agent may crash and come back.
 */
module Delivery {
  import opened Prelude
  import opened LeadStore
  import opened Outbox

  // ---- the fate of rows ----

  /** The outbox file with the history of its rows: all ever enqueued, their failures, those acked, those dead, oldest first. */
  datatype Ledger = Ledger(
    table: Table,
    enqueued: map<nat, Row>,
    failures: map<nat, nat>,
    acked: set<nat>,
    died: seq<nat>)

  function Queued(l: Ledger, job: int, payload: Capture): Ledger {
    l.(table := Enqueued(l.table, job, "lead", payload),
       enqueued := l.enqueued[l.table.next := Row(job, "lead", payload, 0)],
       failures := l.failures[l.table.next := 0])
  }

  function Acknowledged(l: Ledger, ids: set<nat>): Ledger {
    l.(table := AckedAll(l.table, ids), acked := l.acked + (ids * l.table.rows.Keys))
  }

  function RejectedOne(l: Ledger, e: Entry): Ledger {
    var table := Failed(l.table, e, "lead");
    if e.id !in l.table.rows || e.id !in l.failures then l.(table := table)
    else
      l.(table := table,
         failures := l.failures[e.id := l.failures[e.id] + 1],
         died := if e.id in table.rows then l.died else l.died + [e.id])
  }

  function RejectedAll(l: Ledger, batch: seq<Entry>): Ledger {
    if batch == [] then l else RejectedOne(RejectedAll(l, batch[..|batch| - 1]), batch[|batch| - 1])
  }

  ghost predicate Written(enqueued: map<nat, Row>, e: Entry) {
    e.id in enqueued && enqueued[e.id].job == e.job && enqueued[e.id].payload == e.payload
  }

  /** Every row ever enqueued is in exactly one of the outbox, the acked rows and the dead rows. */
  ghost predicate Accounted(l: Ledger) {
    && l.enqueued.Keys == l.failures.Keys
    && (forall id :: id in l.enqueued <==> id in l.table.rows || id in l.acked || id in l.died)
    && (forall id :: id in l.table.rows ==> id !in l.acked && id !in l.died)
    && (forall id :: id in l.acked ==> id !in l.died)
    && (forall i, j :: 0 <= i < j < |l.died| ==> l.died[i] != l.died[j])
  }

  /** A queued row carries its payload and its failure count; a row is dead exactly at the eighth failure. */
  ghost predicate Counted(l: Ledger) {
    && (forall id :: id in l.enqueued ==> id < l.table.next && l.enqueued[id].kind == "lead")
    && (forall id :: id in l.table.rows ==> id in l.enqueued && id in l.failures
                                            && l.table.rows[id] == l.enqueued[id].(attempts := l.failures[id]))
    && (forall id :: id in l.failures ==> if id in l.died then l.failures[id] == 8 else l.failures[id] < 8)
  }

  /** The dead table holds the dead rows' payloads, in order of death. */
  ghost predicate Buried(l: Ledger) {
    && |l.table.dead| == |l.died|
    && forall i :: 0 <= i < |l.died| ==>
         l.died[i] in l.enqueued
         && l.table.dead[i] == DeadRow(l.enqueued[l.died[i]].job, "lead", l.enqueued[l.died[i]].payload)
  }

  ghost predicate Balanced(l: Ledger) {
    Accounted(l) && Counted(l) && Buried(l)
  }

  /** History only grows: rows stay enqueued as written, acked stays acked, dead stays dead. */
  ghost predicate Grown(l: Ledger, m: Ledger) {
    && (forall id :: id in l.enqueued ==> id in m.enqueued && m.enqueued[id] == l.enqueued[id])
    && l.acked <= m.acked && l.died <= m.died
  }

  lemma QueuedAccounts(l: Ledger, job: int, payload: Capture)
    requires Balanced(l)
    ensures l.table.next !in l.enqueued && Accounted(Queued(l, job, payload))
  {
    assert l.table.next !in l.enqueued;
  }

  lemma QueuedCounts(l: Ledger, job: int, payload: Capture)
    requires Balanced(l) && l.table.next !in l.enqueued
    ensures Counted(Queued(l, job, payload))
  {
  }

  lemma QueuedBuries(l: Ledger, job: int, payload: Capture)
    requires Balanced(l) && l.table.next !in l.enqueued
    ensures Buried(Queued(l, job, payload)) && Grown(l, Queued(l, job, payload))
  {
  }

  lemma QueuedBalances(l: Ledger, job: int, payload: Capture)
    requires Balanced(l)
    ensures Balanced(Queued(l, job, payload)) && Grown(l, Queued(l, job, payload))
  {
    QueuedAccounts(l, job, payload);
    QueuedCounts(l, job, payload);
    QueuedBuries(l, job, payload);
  }

  lemma AcknowledgedBalances(l: Ledger, ids: set<nat>)
    requires Balanced(l)
    ensures Balanced(Acknowledged(l, ids)) && Grown(l, Acknowledged(l, ids))
  {
  }

  lemma RejectedOneAccounts(l: Ledger, e: Entry)
    requires Balanced(l)
    ensures Accounted(RejectedOne(l, e))
  {
    var m := RejectedOne(l, e);
    if e.id !in l.table.rows {
      assert m == l;
    } else if e.id in m.table.rows {
      assert m.died == l.died && m.table.rows.Keys == l.table.rows.Keys;
    } else {
      assert m.died == l.died + [e.id] && m.table.rows.Keys == l.table.rows.Keys - {e.id};
      assert e.id in m.died;
    }
  }

  lemma RejectedOneCounts(l: Ledger, e: Entry)
    requires Balanced(l)
    ensures Counted(RejectedOne(l, e))
  {
  }

  lemma RejectedOneBuries(l: Ledger, e: Entry)
    requires Balanced(l) && Written(l.enqueued, e)
    ensures Buried(RejectedOne(l, e))
  {
  }

  lemma RejectedOneBalances(l: Ledger, e: Entry)
    requires Balanced(l) && Written(l.enqueued, e)
    ensures Balanced(RejectedOne(l, e)) && Grown(l, RejectedOne(l, e))
    ensures RejectedOne(l, e).acked == l.acked && RejectedOne(l, e).enqueued == l.enqueued
  {
    RejectedOneAccounts(l, e);
    RejectedOneCounts(l, e);
    RejectedOneBuries(l, e);
  }

  lemma {:induction false} RejectedAllBalances(l: Ledger, batch: seq<Entry>)
    requires Balanced(l) && forall i :: 0 <= i < |batch| ==> Written(l.enqueued, batch[i])
    ensures Balanced(RejectedAll(l, batch)) && Grown(l, RejectedAll(l, batch))
    ensures RejectedAll(l, batch).acked == l.acked && RejectedAll(l, batch).enqueued == l.enqueued
    ensures RejectedAll(l, batch).table == FailedAll(l.table, batch, "lead")
  {
    if batch != [] {
      RejectedAllBalances(l, batch[..|batch| - 1]);
      RejectedOneBalances(RejectedAll(l, batch[..|batch| - 1]), batch[|batch| - 1]);
    }
  }

  // ---- flushers, requests and the cloud ----

  /** A flusher between steps: it holds the batch it read and the requests it posted for it. */
  datatype Flusher = Idle | Waiting(batch: seq<Entry>, posted: set<nat>)

  /** A request on its way or at the cloud, which has processed its first done items. */
  datatype Request = Request(batch: seq<Entry>, done: nat)

  /** One item handled by the cloud, and how far it got with it. */
  datatype Delivered = Delivered(row: nat, outcome: Outcome)

  datatype World = World(
    job: int,
    ledger: Ledger,
    flushers: seq<Flusher>,
    requests: seq<Request>,
    deliveries: seq<Delivered>)

  datatype Action =
    | Enqueue(payload: Capture)
    | Read(f: nat, batch: seq<Entry>)
    | Post(f: nat)
    | Process(r: nat, outcome: Outcome)
    | Accept(f: nat, r: nat)
    | Reject(f: nat)
    | Cancel(f: nat)
    | Crash

  ghost predicate Possible(w: World, a: Action) {
    match a
    case Enqueue(_) => true
    case Read(f, batch) =>
      f < |w.flushers| && w.flushers[f].Idle? && batch != [] && IsBatch(w.ledger.table, "lead", 100, batch)
    case Post(f) => f < |w.flushers| && w.flushers[f].Waiting?
    case Process(r, _) => r < |w.requests| && w.requests[r].done < |w.requests[r].batch|
    case Accept(f, r) =>
      f < |w.flushers| && w.flushers[f].Waiting? && r in w.flushers[f].posted
      && r < |w.requests| && w.requests[r].done == |w.requests[r].batch|
    case Reject(f) => f < |w.flushers| && w.flushers[f].Waiting?
    case Cancel(f) => f < |w.flushers|
    case Crash => true
  }

  function Posted(w: World, f: nat): World
    requires f < |w.flushers| && w.flushers[f].Waiting?
  {
    w.(requests := w.requests + [Request(w.flushers[f].batch, 0)],
       flushers := w.flushers[f := Waiting(w.flushers[f].batch, w.flushers[f].posted + {|w.requests|})])
  }

  /** The cloud handles the next item of a request; whatever comes of it, the item is processed and the request goes on. */
  function Processed(w: World, r: nat, outcome: Outcome): World
    requires r < |w.requests| && w.requests[r].done < |w.requests[r].batch|
  {
    var q := w.requests[r];
    w.(requests := w.requests[r := q.(done := q.done + 1)], deliveries := w.deliveries + [Delivered(q.batch[q.done].id, outcome)])
  }

  ghost function Next(w: World, a: Action): World
    requires Possible(w, a)
  {
    match a
    case Enqueue(payload) => w.(ledger := Queued(w.ledger, w.job, payload))
    case Read(f, batch) => w.(flushers := w.flushers[f := Waiting(batch, {})])
    case Post(f) => Posted(w, f)
    case Process(r, outcome) => Processed(w, r, outcome)
    case Accept(f, _) =>
      w.(ledger := Acknowledged(w.ledger, IdsOf(w.flushers[f].batch)), flushers := w.flushers[f := Idle])
    case Reject(f) => w.(ledger := RejectedAll(w.ledger, w.flushers[f].batch), flushers := w.flushers[f := Idle])
    case Cancel(f) => w.(flushers := w.flushers[f := Idle])
    case Crash => w.(flushers := seq(|w.flushers|, i => Idle))
  }

  ghost predicate Runs(w: World, run: seq<Action>)
    decreases |run|, 0
  {
    run == [] || (Runs(w, run[..|run| - 1]) && Possible(After(w, run[..|run| - 1]), run[|run| - 1]))
  }

  ghost function After(w: World, run: seq<Action>): World
    requires Runs(w, run)
    decreases |run|, 1
  {
    if run == [] then w else Next(After(w, run[..|run| - 1]), run[|run| - 1])
  }

  /** An empty outbox and idle flushers. */
  ghost predicate Fresh(w: World) {
    && w.ledger.table.rows == map[] && w.ledger.table.dead == [] && w.ledger.enqueued == map[] && w.ledger.failures == map[]
    && w.ledger.acked == {} && w.ledger.died == [] && w.requests == [] && w.deliveries == []
    && forall f :: 0 <= f < |w.flushers| ==> w.flushers[f].Idle?
  }

  ghost predicate AllWritten(enqueued: map<nat, Row>, batch: seq<Entry>) {
    forall i :: 0 <= i < |batch| ==> Written(enqueued, batch[i])
  }

  /** The cloud has handled the row at least once. */
  predicate WasProcessed(deliveries: seq<Delivered>, id: nat) {
    exists i :: 0 <= i < |deliveries| && deliveries[i].row == id
  }

  lemma ProcessedMore(deliveries: seq<Delivered>, d: Delivered)
    ensures forall id :: WasProcessed(deliveries + [d], id) <==> WasProcessed(deliveries, id) || d.row == id
  {
    var more := deliveries + [d];
    assert more[|deliveries|] == d;
    forall id | WasProcessed(deliveries, id) ensures WasProcessed(more, id) {
      var i :| 0 <= i < |deliveries| && deliveries[i].row == id;
      assert more[i].row == id;
    }
  }

  ghost predicate RequestOk(q: Request, enqueued: map<nat, Row>, deliveries: seq<Delivered>) {
    && AllWritten(enqueued, q.batch) && q.done <= |q.batch|
    && forall i :: 0 <= i < q.done ==> WasProcessed(deliveries, q.batch[i].id)
  }

  ghost predicate FlusherOk(f: Flusher, enqueued: map<nat, Row>, requests: seq<Request>) {
    f.Waiting? ==>
      && AllWritten(enqueued, f.batch)
      && forall r :: r in f.posted ==> r < |requests| && requests[r].batch == f.batch
  }

  /** Batches in flight hold rows as enqueued; what is acked was processed, and what was processed was enqueued. */
  ghost predicate Carried(w: World) {
    && (forall r :: 0 <= r < |w.requests| ==> RequestOk(w.requests[r], w.ledger.enqueued, w.deliveries))
    && (forall f :: 0 <= f < |w.flushers| ==> FlusherOk(w.flushers[f], w.ledger.enqueued, w.requests))
    && (forall id :: id in w.ledger.acked ==> WasProcessed(w.deliveries, id))
    && (forall i :: 0 <= i < |w.deliveries| ==> w.deliveries[i].row in w.ledger.enqueued)
    && (forall id :: id in w.ledger.enqueued ==> w.ledger.enqueued[id].job == w.job)
  }

  ghost predicate Inv(w: World) {
    Balanced(w.ledger) && Carried(w)
  }

  /** Carried needs no more than growing rows and acks that were processed. */
  lemma CarriedOn(w: World, m: Ledger)
    requires Carried(w) && Grown(w.ledger, m)
    requires forall id :: id in m.acked ==> WasProcessed(w.deliveries, id)
    requires forall id :: id in m.enqueued ==> m.enqueued[id].job == w.job
    ensures Carried(w.(ledger := m))
  {
  }

  lemma RestCarries(w: World, f: nat)
    requires Carried(w) && f < |w.flushers|
    ensures Carried(w.(flushers := w.flushers[f := Idle]))
  {
  }

  lemma ReadCarries(w: World, f: nat, batch: seq<Entry>)
    requires Inv(w) && Possible(w, Read(f, batch))
    ensures Carried(Next(w, Read(f, batch)))
  {
    forall i | 0 <= i < |batch| ensures Written(w.ledger.enqueued, batch[i]) {
      assert Reads(w.ledger.table, "lead", batch[i]);
    }
  }

  lemma PostCarries(w: World, f: nat)
    requires Inv(w) && Possible(w, Post(f))
    ensures Carried(Next(w, Post(f)))
  {
    var v := Next(w, Post(f));
    forall g | 0 <= g < |v.flushers| ensures FlusherOk(v.flushers[g], v.ledger.enqueued, v.requests) {
      assert FlusherOk(w.flushers[g], w.ledger.enqueued, w.requests);
    }
  }

  lemma ProcessCarries(w: World, r: nat, outcome: Outcome)
    requires Inv(w) && Possible(w, Process(r, outcome))
    ensures Carried(Next(w, Process(r, outcome)))
  {
    var v := Next(w, Process(r, outcome));
    var q := w.requests[r];
    assert RequestOk(q, w.ledger.enqueued, w.deliveries) && Written(w.ledger.enqueued, q.batch[q.done]);
    ProcessedMore(w.deliveries, Delivered(q.batch[q.done].id, outcome));
    forall k | 0 <= k < |v.requests| ensures RequestOk(v.requests[k], v.ledger.enqueued, v.deliveries) {
      assert RequestOk(w.requests[k], w.ledger.enqueued, w.deliveries);
    }
    forall g | 0 <= g < |v.flushers| ensures FlusherOk(v.flushers[g], v.ledger.enqueued, v.requests) {
      assert FlusherOk(w.flushers[g], w.ledger.enqueued, w.requests);
    }
  }

  /** The rows of a batch whose request the cloud has finished were all processed. */
  lemma AcceptedWereProcessed(w: World, f: nat, r: nat)
    requires Inv(w) && Possible(w, Accept(f, r))
    ensures forall id :: id in IdsOf(w.flushers[f].batch) ==> WasProcessed(w.deliveries, id)
  {
    assert FlusherOk(w.flushers[f], w.ledger.enqueued, w.requests);
    assert RequestOk(w.requests[r], w.ledger.enqueued, w.deliveries);
  }

  lemma StepBalances(w: World, a: Action)
    requires Inv(w) && Possible(w, a)
    ensures Inv(Next(w, a)) && Grown(w.ledger, Next(w, a).ledger)
  {
    match a
    case Enqueue(payload) =>
      QueuedBalances(w.ledger, w.job, payload);
      CarriedOn(w, Queued(w.ledger, w.job, payload));
    case Read(f, batch) => ReadCarries(w, f, batch);
    case Post(f) => PostCarries(w, f);
    case Process(r, outcome) => ProcessCarries(w, r, outcome);
    case Accept(f, r) =>
      var m := Acknowledged(w.ledger, IdsOf(w.flushers[f].batch));
      AcceptedWereProcessed(w, f, r);
      AcknowledgedBalances(w.ledger, IdsOf(w.flushers[f].batch));
      CarriedOn(w, m);
      RestCarries(w.(ledger := m), f);
    case Reject(f) =>
      var m := RejectedAll(w.ledger, w.flushers[f].batch);
      assert FlusherOk(w.flushers[f], w.ledger.enqueued, w.requests);
      RejectedAllBalances(w.ledger, w.flushers[f].batch);
      CarriedOn(w, m);
      RestCarries(w.(ledger := m), f);
    case Cancel(f) => RestCarries(w, f);
    case Crash =>
  }

  /**
   In every run with any number of flushers, lost answers, partial batches and crashes: each row ever
   enqueued is queued, acked or dead and only one of these; a row dies once, at its eighth failure and
   never after an ack; acked rows were processed by the cloud; and each fate is final.
   */
  lemma {:induction false} RunBalances(w: World, run: seq<Action>)
    requires Inv(w) && Runs(w, run)
    ensures Inv(After(w, run)) && Grown(w.ledger, After(w, run).ledger)
    ensures After(w, run).job == w.job
  {
    if run != [] {
      RunBalances(w, run[..|run| - 1]);
      StepBalances(After(w, run[..|run| - 1]), run[|run| - 1]);
    }
  }

  lemma FreshStart(w: World)
    requires Fresh(w)
    ensures Inv(w)
  {
  }

  /**
   The outbox reads as drained exactly when every row of the job has been acked, hence processed by the
   cloud, or has failed eight times and lies in the dead table.
   */
  lemma DrainedIffSettled(w: World, run: seq<Action>)
    requires Fresh(w) && Runs(w, run)
    ensures var v := After(w, run);
            Drained(v.ledger.table, w.job) <==>
              forall id :: id in v.ledger.enqueued ==>
                (id in v.ledger.acked && WasProcessed(v.deliveries, id))
                || (id in v.ledger.died && id in v.ledger.failures && v.ledger.failures[id] == 8)
  {
    FreshStart(w);
    RunBalances(w, run);
    var v := After(w, run);
    if !Drained(v.ledger.table, w.job) {
      var id :| id in v.ledger.table.rows && v.ledger.table.rows[id].job == w.job;
      assert id in v.ledger.enqueued && id !in v.ledger.acked && id !in v.ledger.died;
    }
  }

  // ---- draining while other flushers run ----

  /** No row can take more failures than before. */
  ghost predicate Lowered(t: Table, u: Table) {
    TableOk(u) && u.next == t.next && forall id :: Left(u.rows, id) <= Left(t.rows, id)
  }

  lemma {:induction false} FailedAllLowers(t: Table, batch: seq<Entry>)
    requires TableOk(t)
    ensures Lowered(t, FailedAll(t, batch, "lead"))
    ensures batch != [] && batch[0].id in t.rows ==> Left(FailedAll(t, batch, "lead").rows, batch[0].id) < Left(t.rows, batch[0].id)
  {
    if batch != [] {
      FailedAllLowers(t, batch[..|batch| - 1]);
      FailedNudges(FailedAll(t, batch[..|batch| - 1], "lead"), batch[|batch| - 1], "lead");
    }
  }

  lemma {:induction false} RejectedAllFails(l: Ledger, batch: seq<Entry>)
    ensures RejectedAll(l, batch).table == FailedAll(l.table, batch, "lead")
  {
    if batch != [] {
      RejectedAllFails(l, batch[..|batch| - 1]);
    }
  }

  /** Nothing but a new row raises what the rows can still take, and finishing a batch lowers it if its oldest row is still queued. */
  lemma StepLowers(w: World, a: Action)
    requires TableOk(w.ledger.table) && Possible(w, a) && !a.Enqueue?
    ensures Lowered(w.ledger.table, Next(w, a).ledger.table)
    ensures (a.Accept? || a.Reject?) && w.flushers[a.f].batch != [] && w.flushers[a.f].batch[0].id in w.ledger.table.rows ==>
              var id := w.flushers[a.f].batch[0].id;
              Left(Next(w, a).ledger.table.rows, id) < Left(w.ledger.table.rows, id)
  {
    if a.Accept? {
      var batch := w.flushers[a.f].batch;
      assert batch != [] ==> batch[0].id in IdsOf(batch);
    } else if a.Reject? {
      FailedAllLowers(w.ledger.table, w.flushers[a.f].batch);
      RejectedAllFails(w.ledger, w.flushers[a.f].batch);
    }
  }

  /** The failures that the rows of the outbox can still take. */
  function Potential(w: World): nat {
    Budget(w.ledger.table.rows, w.ledger.table.next)
  }

  /** The flushes that f has finished, with whatever answer. */
  function Finishes(run: seq<Action>, f: nat): nat {
    if run == [] then 0
    else
      var last := run[|run| - 1];
      Finishes(run[..|run| - 1], f) + if (last.Accept? || last.Reject?) && last.f == f then 1 else 0
  }

  ghost predicate NothingNew(run: seq<Action>) {
    forall i :: 0 <= i < |run| ==> !run[i].Enqueue?
  }

  /**
   The books of flusher f: `start` bounds the flushes finished so far plus the potential, counted for a
   batch in hand at the time it was read. Since then the potential has fallen, or the batch's oldest row
   is still queued.
   */
  ghost predicate Paced(w: World, f: nat, start: nat, finished: nat, atRead: nat) {
    && TableOk(w.ledger.table) && f < |w.flushers|
    && if w.flushers[f].Idle? then finished + Potential(w) <= start
       else finished + atRead <= start && Potential(w) <= atRead && w.flushers[f].batch != []
            && (Potential(w) == atRead ==> w.flushers[f].batch[0].id in w.ledger.table.rows)
  }

  lemma LoweredPotential(w: World, v: World)
    requires TableOk(w.ledger.table) && Lowered(w.ledger.table, v.ledger.table)
    ensures Potential(v) <= Potential(w)
    ensures forall id :: id in w.ledger.table.rows && Left(v.ledger.table.rows, id) < Left(w.ledger.table.rows, id) ==>
              Potential(v) < Potential(w)
    ensures Potential(v) == Potential(w) ==> forall id :: id in w.ledger.table.rows ==> id in v.ledger.table.rows
  {
    BudgetShrinks(w.ledger.table.rows, v.ledger.table.rows, w.ledger.table.next);
    forall id | id in w.ledger.table.rows && Left(v.ledger.table.rows, id) < Left(w.ledger.table.rows, id)
      ensures Potential(v) < Potential(w)
    {
      assert id < w.ledger.table.next;
    }
    if Potential(v) == Potential(w) {
      forall id | id in w.ledger.table.rows ensures id in v.ledger.table.rows {
        assert !(Left(v.ledger.table.rows, id) < Left(w.ledger.table.rows, id));
      }
    }
  }

  lemma StepPaces(w: World, a: Action, f: nat, start: nat, finished: nat, atRead: nat) returns (finished': nat, atRead': nat)
    requires Paced(w, f, start, finished, atRead) && Possible(w, a) && !a.Enqueue?
    ensures finished' == finished + if (a.Accept? || a.Reject?) && a.f == f then 1 else 0
    ensures Paced(Next(w, a), f, start, finished', atRead')
  {
    var v := Next(w, a);
    StepLowers(w, a);
    LoweredPotential(w, v);
    finished' := finished + if (a.Accept? || a.Reject?) && a.f == f then 1 else 0;
    atRead' := if a.Read? && a.f == f then Potential(w) else atRead;
    if a.Read? && a.f == f {
      assert Reads(w.ledger.table, "lead", a.batch[0]);
    }
  }

  lemma {:induction false} RunPaces(w: World, run: seq<Action>, f: nat) returns (atRead: nat)
    requires TableOk(w.ledger.table) && f < |w.flushers| && w.flushers[f].Idle? && Runs(w, run) && NothingNew(run)
    ensures Paced(After(w, run), f, Potential(w), Finishes(run, f), atRead)
  {
    if run == [] {
      atRead := 0;
    } else {
      var init, last := run[..|run| - 1], run[|run| - 1];
      atRead := RunPaces(w, init, f);
      var finished;
      finished, atRead := StepPaces(After(w, init), last, f, Potential(w), Finishes(init, f), atRead);
    }
  }

  /**
   Once no rows are added, a flusher finishes at most as many flushes as failures were left to the rows,
   whatever the other flushers do in between: a batch that finds its rows gone or failed again was paid
   for by the flusher that got there first. With that many flushes finished, nothing is left.
   */
  lemma FlushesAreBounded(w: World, run: seq<Action>, f: nat)
    requires TableOk(w.ledger.table) && f < |w.flushers| && w.flushers[f].Idle? && Runs(w, run) && NothingNew(run)
    ensures Finishes(run, f) + Potential(After(w, run)) <= Potential(w)
    ensures Finishes(run, f) == Potential(w) ==> After(w, run).ledger.table.rows == map[] && Drained(After(w, run).ledger.table, w.job)
  {
    var atRead := RunPaces(w, run, f);
    var rows, next := After(w, run).ledger.table.rows, After(w, run).ledger.table.next;
    if Finishes(run, f) == Potential(w) {
      forall id | id in rows ensures false {
        BudgetHolds(rows, next, id);
      }
    }
  }

  // ---- a flush from end to end ----

  lemma OneMore(w: World, run: seq<Action>, a: Action)
    requires Runs(w, run) && Possible(After(w, run), a)
    ensures Runs(w, run + [a]) && After(w, run + [a]) == Next(After(w, run), a)
  {
    assert (run + [a])[..|run|] == run;
  }

  lemma {:induction false} ThenMore(w: World, a: seq<Action>, b: seq<Action>)
    requires Runs(w, a) && Runs(After(w, a), b)
    ensures Runs(w, a + b) && After(w, a + b) == After(After(w, a), b)
  {
    if b == [] {
      assert a + b == a;
    } else {
      var init, last := b[..|b| - 1], b[|b| - 1];
      ThenMore(w, a, init);
      OneMore(w, a + init, last);
      assert a + b == (a + init) + [last];
    }
  }

  function Items(r: nat, outcomes: seq<Outcome>): seq<Action> {
    seq(|outcomes|, i requires 0 <= i < |outcomes| => Process(r, outcomes[i]))
  }

  /** The items of a batch from one on, as the cloud handled them. */
  function Handled(batch: seq<Entry>, from: nat, outcomes: seq<Outcome>): seq<Delivered>
    requires from + |outcomes| <= |batch|
  {
    seq(|outcomes|, i requires 0 <= i < |outcomes| => Delivered(batch[from + i].id, outcomes[i]))
  }

  predicate CanHandle(w: World, r: nat, outcomes: seq<Outcome>) {
    r < |w.requests| && w.requests[r].done + |outcomes| <= |w.requests[r].batch|
  }

  /** The world after the cloud has handled that many more items of request r. */
  function WentOn(w: World, r: nat, outcomes: seq<Outcome>): World
    requires CanHandle(w, r, outcomes)
  {
    var q := w.requests[r];
    w.(requests := w.requests[r := q.(done := q.done + |outcomes|)],
       deliveries := w.deliveries + Handled(q.batch, q.done, outcomes))
  }

  /** The cloud can go on with a request item by item, whether or not anybody still waits for its answer. */
  lemma {:induction false} RequestGoesOn(w: World, r: nat, outcomes: seq<Outcome>)
    requires CanHandle(w, r, outcomes)
    ensures Runs(w, Items(r, outcomes)) && After(w, Items(r, outcomes)) == WentOn(w, r, outcomes)
  {
    var q := w.requests[r];
    if outcomes == [] {
      assert Items(r, outcomes) == [] && Handled(q.batch, q.done, outcomes) == [];
    } else {
      var init, last := outcomes[..|outcomes| - 1], outcomes[|outcomes| - 1];
      RequestGoesOn(w, r, init);
      OneMore(w, Items(r, init), Process(r, last));
      assert Items(r, outcomes) == Items(r, init) + [Process(r, last)];
      assert Handled(q.batch, q.done, outcomes)
          == Handled(q.batch, q.done, init) + [Delivered(q.batch[q.done + |init|].id, last)];
    }
  }

  /** How a flush ends: answered, failed, given up before an answer, or with the agent. */
  datatype FlushEnd = Answered | Unanswered | GivenUp | Crashed

  function Ending(f: nat, r: nat, end: FlushEnd): Action {
    match end
    case Answered => Accept(f, r)
    case Unanswered => Reject(f)
    case GivenUp => Cancel(f)
    case Crashed => Crash
  }

  /** A batch read and posted, once or a second time, and its last request open. */
  ghost predicate Open(w: World, v: World, f: nat, batch: seq<Entry>, second: bool) {
    && f < |w.flushers| == |v.flushers| && v.flushers[f].Waiting? && v.flushers[f].batch == batch
    && (forall g :: 0 <= g < |w.flushers| && g != f ==> v.flushers[g] == w.flushers[g])
    && v.ledger == w.ledger && v.job == w.job && v.deliveries == w.deliveries
    && v.requests == w.requests + (if second then [Request(batch, 0)] else []) + [Request(batch, 0)]
    && |v.requests| - 1 in v.flushers[f].posted
  }

  lemma FirstPost(w: World, f: nat, batch: seq<Entry>)
    requires f < |w.flushers| && w.flushers[f].Idle? && batch != [] && IsBatch(w.ledger.table, "lead", 100, batch)
    ensures Possible(w, Read(f, batch)) && Possible(Next(w, Read(f, batch)), Post(f))
    ensures Open(w, Next(Next(w, Read(f, batch)), Post(f)), f, batch, false)
  {
  }

  lemma SecondPost(w: World, v: World, f: nat, batch: seq<Entry>)
    requires Open(w, v, f, batch, false)
    ensures Possible(v, Post(f)) && Open(w, Next(v, Post(f)), f, batch, true)
  {
  }

  lemma FlushOpens(w: World, f: nat, batch: seq<Entry>, second: bool) returns (run: seq<Action>)
    requires f < |w.flushers| && w.flushers[f].Idle? && batch != [] && IsBatch(w.ledger.table, "lead", 100, batch)
    ensures Runs(w, run) && Open(w, After(w, run), f, batch, second)
  {
    FirstPost(w, f, batch);
    assert Runs(w, []) && After(w, []) == w;
    OneMore(w, [], Read(f, batch));
    var read := [] + [Read(f, batch)];
    OneMore(w, read, Post(f));
    run := read + [Post(f)];
    if second {
      SecondPost(w, After(w, run), f, batch);
      OneMore(w, run, Post(f));
      run := run + [Post(f)];
    }
  }

  /** The outbox after a flush: the batch is gone, has failed once more, or is as it was. */
  function Flushed(t: Table, batch: seq<Entry>, end: FlushEnd): Table {
    match end
    case Answered => AckedAll(t, IdsOf(batch))
    case Unanswered => FailedAll(t, batch, "lead")
    case _ => t
  }

  /** After the cloud has handled that many items of the last request and the flush has ended. */
  ghost predicate Closed(w: World, v: World, f: nat, batch: seq<Entry>, second: bool, outcomes: seq<Outcome>, end: FlushEnd)
    requires |outcomes| <= |batch|
  {
    && f < |w.flushers| == |v.flushers| && v.flushers[f].Idle?
    && (forall g :: 0 <= g < |w.flushers| && g != f ==> v.flushers[g] == if end.Crashed? then Idle else w.flushers[g])
    && v.ledger.table == Flushed(w.ledger.table, batch, end)
    && v.requests == w.requests + (if second then [Request(batch, 0)] else []) + [Request(batch, |outcomes|)]
    && v.deliveries == w.deliveries + Handled(batch, 0, outcomes)
  }

  lemma LastRequest(requests: seq<Request>, before: seq<Request>, batch: seq<Entry>, done: nat)
    requires requests == before + [Request(batch, 0)]
    ensures requests[|requests| - 1 := Request(batch, done)] == before + [Request(batch, done)]
  {
  }

  lemma FlushEnds(w: World, v: World, f: nat, batch: seq<Entry>, second: bool, outcomes: seq<Outcome>, end: FlushEnd)
    requires Open(w, v, f, batch, second) && |outcomes| <= |batch| && (end.Answered? ==> |outcomes| == |batch|)
    ensures var r := |v.requests| - 1;
            && CanHandle(v, r, outcomes) && Possible(WentOn(v, r, outcomes), Ending(f, r, end))
            && Closed(w, Next(WentOn(v, r, outcomes), Ending(f, r, end)), f, batch, second, outcomes, end)
  {
    LastRequest(v.requests, w.requests + (if second then [Request(batch, 0)] else []), batch, |outcomes|);
    RejectedAllFails(w.ledger, batch);
  }

  lemma FlushCloses(w: World, v: World, f: nat, batch: seq<Entry>, second: bool, outcomes: seq<Outcome>, end: FlushEnd)
    returns (run: seq<Action>)
    requires Open(w, v, f, batch, second) && |outcomes| <= |batch| && (end.Answered? ==> |outcomes| == |batch|)
    ensures Runs(v, run) && Closed(w, After(v, run), f, batch, second, outcomes, end)
  {
    var r := |v.requests| - 1;
    FlushEnds(w, v, f, batch, second, outcomes, end);
    RequestGoesOn(v, r, outcomes);
    OneMore(v, Items(r, outcomes), Ending(f, r, end));
    run := Items(r, outcomes) + [Ending(f, r, end)];
  }

  /**
   Every flush can go in each of these ways: a full batch is read and posted, a second time when the first
   post was turned away; the cloud handles any number of its items, each with any outcome; then the answer
   comes, or fails, or is not waited for, or the agent crashes. What becomes of the outbox is what the
   flusher's own method does to it.
   */
  lemma FlushIsARun(w: World, f: nat, batch: seq<Entry>, second: bool, outcomes: seq<Outcome>, end: FlushEnd)
    returns (run: seq<Action>)
    requires f < |w.flushers| && w.flushers[f].Idle? && batch != [] && IsBatch(w.ledger.table, "lead", 100, batch)
    requires |outcomes| <= |batch| && (end.Answered? ==> |outcomes| == |batch|)
    ensures Runs(w, run) && Closed(w, After(w, run), f, batch, second, outcomes, end)
  {
    var open := FlushOpens(w, f, batch, second);
    var close := FlushCloses(w, After(w, open), f, batch, second, outcomes, end);
    ThenMore(w, open, close);
    run := open + close;
  }
}
