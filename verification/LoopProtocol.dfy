/** The dispatch loop is a run of the dispatch protocol: each of its turns is a sequence of protocol events. */
module LoopProtocol {
  import opened Prelude
  import opened Outreach
  import opened Dispatch
  import L = DispatchLoop

  lemma OneMore(w: World, evs: seq<Event>, ev: Event)
    requires Legal(w, evs) && Enabled(Run(w, evs), ev)
    ensures Legal(w, evs + [ev]) && Run(w, evs + [ev]) == Apply(Run(w, evs), ev)
  {
    assert (evs + [ev])[..|evs|] == evs;
  }

  lemma {:induction false} ThenMore(w: World, a: seq<Event>, b: seq<Event>)
    requires Legal(w, a) && Legal(Run(w, a), b)
    ensures Legal(w, a + b) && Run(w, a + b) == Run(Run(w, a), b)
  {
    if b == [] {
      assert a + b == a;
    } else {
      var init, last := b[..|b| - 1], b[|b| - 1];
      ThenMore(w, a, init);
      OneMore(w, a + init, last);
      assert a + b == (a + init) + [last];
    }
  }

  /** The world after task t has worked on one e-mail. */
  ghost predicate Worked(w: World, v: World, t: int, turn: L.Turn) {
    && v.rows == L.TurnRows(w.rows, turn) && v.creds == L.TurnCreds(w.creds, turn)
    && v.now == turn.now && v.tasks == w.tasks && v.assignment == w.assignment && v.premature == w.premature
    && v.delivered == (if L.Taken(turn.answer) then w.delivered + multiset{turn.email} else w.delivered)
    && v.ambiguous == (if turn.answer.Failure? && turn.answer.taken then w.ambiguous + multiset{turn.email} else w.ambiguous)
  }

  /** Task t sits at the top of its loop and row and credential are those the loop would take. */
  ghost predicate AtTop(w: World, t: int, campaign: int, assignment: set<int>, index: nat, turn: L.Turn) {
    && t in w.tasks && w.tasks[t] == Task(campaign, Idle) && AssignedTo(w, campaign) == assignment
    && w.now == turn.claimAt <= turn.now && L.FairTurn(w.rows, w.creds, campaign, assignment, index, turn)
  }

  /** Row claimed, credential chosen, and the time of the answer reached. */
  ghost predicate Sending(w: World, v: World, t: int, turn: L.Turn) {
    && t in w.tasks && turn.email in w.rows
    && v == w.(rows := Claimed(w.rows, turn.email, turn.claimAt), now := turn.now,
               tasks := w.tasks[t := w.tasks[t].(phase := Bound(turn.email, turn.claimAt, turn.cred))])
  }

  lemma TurnStarts(w: World, t: int, campaign: int, assignment: set<int>, index: nat, turn: L.Turn) returns (evs: seq<Event>)
    requires AtTop(w, t, campaign, assignment, index, turn)
    ensures Legal(w, evs) && Sending(w, Run(w, evs), t, turn)
  {
    var queued := WithStatus(w.rows, campaign, Queued);
    assert Least(queued) == turn.email;
    assert Run(w, []) == w;
    OneMore(w, [], Claim(t));
    var one := [] + [Claim(t)];
    assert turn.cred in turn.pool;
    OneMore(w, one, Pick(t, turn.cred));
    evs := one + [Pick(t, turn.cred)];
    var wait: nat := turn.now - turn.claimAt;
    OneMore(w, evs, Tick(wait));
    evs := evs + [Tick(wait)];
  }

  /** The end of a send: accepted and confirmed, refused, or accepted and then lost to an exception. */
  function Ending(t: int, answer: L.SendResult): seq<Event> {
    match answer
    case Delivered => [Deliver(t), Confirm(t)]
    case Failure(error, taken) => if taken then [Deliver(t), Confuse(t, error)] else [Refuse(t, error)]
  }

  lemma One(w: World, x: Event)
    requires Enabled(w, x)
    ensures Legal(w, [x]) && Run(w, [x]) == Apply(w, x)
  {
    assert Run(w, []) == w && [] + [x] == [x];
    OneMore(w, [], x);
  }

  lemma Two(w: World, x: Event, y: Event)
    requires Enabled(w, x) && Enabled(Apply(w, x), y)
    ensures Legal(w, [x, y]) && Run(w, [x, y]) == Apply(Apply(w, x), y)
  {
    One(w, x);
    OneMore(w, [x], y);
    assert [x] + [y] == [x, y];
  }

  lemma ConfirmedEnd(w: World, v: World, t: int, campaign: int, turn: L.Turn)
    requires Sending(w, v, t, turn) && w.tasks[t] == Task(campaign, Idle) && turn.answer.Delivered?
    ensures Enabled(v, Deliver(t)) && Enabled(Apply(v, Deliver(t)), Confirm(t))
    ensures Worked(w, Apply(Apply(v, Deliver(t)), Confirm(t)), t, turn)
  {
    assert Apply(Apply(v, Deliver(t)), Confirm(t)).tasks == w.tasks;
  }

  lemma RefusedEnd(w: World, v: World, t: int, campaign: int, turn: L.Turn)
    requires Sending(w, v, t, turn) && w.tasks[t] == Task(campaign, Idle) && turn.answer.Failure? && !turn.answer.taken
    ensures Enabled(v, Refuse(t, turn.answer.error)) && Worked(w, Apply(v, Refuse(t, turn.answer.error)), t, turn)
  {
    assert Apply(v, Refuse(t, turn.answer.error)).tasks == w.tasks;
  }

  lemma ConfusedEnd(w: World, v: World, t: int, campaign: int, turn: L.Turn)
    requires Sending(w, v, t, turn) && w.tasks[t] == Task(campaign, Idle) && turn.answer.Failure? && turn.answer.taken
    ensures Enabled(v, Deliver(t)) && Enabled(Apply(v, Deliver(t)), Confuse(t, turn.answer.error))
    ensures Worked(w, Apply(Apply(v, Deliver(t)), Confuse(t, turn.answer.error)), t, turn)
  {
    assert Apply(Apply(v, Deliver(t)), Confuse(t, turn.answer.error)).tasks == w.tasks;
  }

  lemma TurnEnds(w: World, v: World, t: int, campaign: int, turn: L.Turn)
    requires Sending(w, v, t, turn) && w.tasks[t] == Task(campaign, Idle)
    ensures Legal(v, Ending(t, turn.answer)) && Worked(w, Run(v, Ending(t, turn.answer)), t, turn)
  {
    if turn.answer.Delivered? {
      ConfirmedEnd(w, v, t, campaign, turn);
      Two(v, Deliver(t), Confirm(t));
    } else if turn.answer.taken {
      ConfusedEnd(w, v, t, campaign, turn);
      Two(v, Deliver(t), Confuse(t, turn.answer.error));
    } else {
      RefusedEnd(w, v, t, campaign, turn);
      One(v, Refuse(t, turn.answer.error));
    }
  }

  /** One turn of the loop is a legal sequence of protocol events with the same effect. */
  lemma TurnIsARun(w: World, t: int, campaign: int, assignment: set<int>, index: nat, turn: L.Turn) returns (evs: seq<Event>)
    requires AtTop(w, t, campaign, assignment, index, turn)
    ensures Legal(w, evs) && Worked(w, Run(w, evs), t, turn)
  {
    var start := TurnStarts(w, t, campaign, assignment, index, turn);
    TurnEnds(w, Run(w, start), t, campaign, turn);
    ThenMore(w, start, Ending(t, turn.answer));
    evs := start + Ending(t, turn.answer);
  }

  /** The same after the time until the claim has passed. */
  lemma WaitAndTurn(w: World, t: int, campaign: int, assignment: set<int>, index: nat, turn: L.Turn) returns (evs: seq<Event>)
    requires w.now <= turn.claimAt && AtTop(w.(now := turn.claimAt), t, campaign, assignment, index, turn)
    ensures Legal(w, evs) && Worked(w.(now := turn.claimAt), Run(w, evs), t, turn)
  {
    var wait: nat := turn.claimAt - w.now;
    One(w, Tick(wait));
    var more := TurnIsARun(Run(w, [Tick(wait)]), t, campaign, assignment, index, turn);
    ThenMore(w, [Tick(wait)], more);
    evs := [Tick(wait)] + more;
  }

  /** The clock never goes back from one reading to the next. */
  ghost predicate Timed(now: int, turns: seq<L.Turn>) {
    && (turns != [] ==> now <= turns[0].claimAt)
    && (forall i :: 0 <= i < |turns| ==> turns[i].claimAt <= turns[i].now)
    && (forall i :: 0 < i < |turns| ==> turns[i - 1].now <= turns[i].claimAt)
  }

  /** The rows whose message was taken although the send ended in an error. */
  function DoubtfulRows(turns: seq<L.Turn>): multiset<int> {
    if turns == [] then multiset{}
    else
      var last := turns[|turns| - 1];
      DoubtfulRows(turns[..|turns| - 1]) + if last.answer.Failure? && last.answer.taken then multiset{last.email} else multiset{}
  }

  /** The world after all the turns. */
  ghost predicate AllWorked(w: World, v: World, turns: seq<L.Turn>) {
    && v.rows == L.RowsAfter(w.rows, turns) && v.creds == L.CredsAfter(w.creds, turns)
    && v.now == (if turns == [] then w.now else turns[|turns| - 1].now)
    && v.tasks == w.tasks && v.assignment == w.assignment && v.premature == w.premature
    && v.delivered == w.delivered + multiset(L.TakenRows(turns)) && v.ambiguous == w.ambiguous + DoubtfulRows(turns)
  }

  lemma TalliesNext(turns: seq<L.Turn>, turn: L.Turn)
    ensures multiset(L.TakenRows(turns + [turn]))
         == if L.Taken(turn.answer) then multiset(L.TakenRows(turns)) + multiset{turn.email} else multiset(L.TakenRows(turns))
    ensures DoubtfulRows(turns + [turn])
         == if turn.answer.Failure? && turn.answer.taken then DoubtfulRows(turns) + multiset{turn.email} else DoubtfulRows(turns)
  {
    assert (turns + [turn])[..|turns|] == turns;
    assert multiset([turn.email]) == multiset{turn.email};
    assert L.TakenRows(turns) + [] == L.TakenRows(turns);
  }

  lemma TablesNext(rows: Rows, creds: Credentials, turns: seq<L.Turn>, turn: L.Turn)
    ensures L.RowsAfter(rows, turns + [turn]) == L.TurnRows(L.RowsAfter(rows, turns), turn)
    ensures L.CredsAfter(creds, turns + [turn]) == L.TurnCreds(L.CredsAfter(creds, turns), turn)
  {
    assert (turns + [turn])[..|turns|] == turns;
  }

  lemma AllWorkedNext(w: World, mid: World, v: World, t: int, turns: seq<L.Turn>, turn: L.Turn, all: seq<L.Turn>)
    requires AllWorked(w, mid, turns) && Worked(mid.(now := turn.claimAt), v, t, turn) && all == turns + [turn]
    ensures AllWorked(w, v, all)
  {
    TalliesNext(turns, turn);
    TablesNext(w.rows, w.creds, turns, turn);
    Sums(w.delivered, multiset(L.TakenRows(turns)), multiset{turn.email});
    Sums(w.ambiguous, DoubtfulRows(turns), multiset{turn.email});
  }

  lemma Sums(a: multiset<int>, b: multiset<int>, c: multiset<int>)
    ensures (a + b) + c == a + (b + c)
  {
  }

  lemma ReadyAgain(w: World, mid: World, t: int, campaign: int, assignment: set<int>, turns: seq<L.Turn>, turn: L.Turn)
    requires t in w.tasks && w.tasks[t] == Task(campaign, Idle) && AssignedTo(w, campaign) == assignment
    requires AllWorked(w, mid, turns) && turn.claimAt <= turn.now
    requires L.FairTurn(L.RowsAfter(w.rows, turns), L.CredsAfter(w.creds, turns), campaign, assignment, L.IndexAfter(turns), turn)
    ensures AtTop(mid.(now := turn.claimAt), t, campaign, assignment, L.IndexAfter(turns), turn)
  {
  }

  lemma OneTurnMore(w: World, before: seq<Event>, mid: World, t: int, campaign: int, assignment: set<int>, init: seq<L.Turn>,
                    turn: L.Turn, turns: seq<L.Turn>) returns (evs: seq<Event>)
    requires t in w.tasks && w.tasks[t] == Task(campaign, Idle) && AssignedTo(w, campaign) == assignment
    requires Legal(w, before) && mid == Run(w, before) && AllWorked(w, mid, init) && turns == init + [turn]
    requires mid.now <= turn.claimAt <= turn.now
    requires L.FairTurn(L.RowsAfter(w.rows, init), L.CredsAfter(w.creds, init), campaign, assignment, L.IndexAfter(init), turn)
    ensures Legal(w, evs) && AllWorked(w, Run(w, evs), turns)
  {
    ReadyAgain(w, mid, t, campaign, assignment, init, turn);
    var more := WaitAndTurn(mid, t, campaign, assignment, L.IndexAfter(init), turn);
    ThenMore(w, before, more);
    AllWorkedNext(w, mid, Run(mid, more), t, init, turn, turns);
    evs := before + more;
  }

  lemma LastTurn(rows: Rows, creds: Credentials, campaign: int, assignment: set<int>, now: int, turns: seq<L.Turn>)
    requires turns != [] && L.Played(rows, creds, campaign, assignment, turns) && Timed(now, turns)
    ensures var init, turn := turns[..|turns| - 1], turns[|turns| - 1];
            && turns == init + [turn] && L.Played(rows, creds, campaign, assignment, init) && Timed(now, init)
            && L.FairTurn(L.RowsAfter(rows, init), L.CredsAfter(creds, init), campaign, assignment, L.IndexAfter(init), turn)
            && (if init == [] then now else init[|init| - 1].now) <= turn.claimAt <= turn.now
  {
  }

  /** A whole run of the loop is a legal run of the protocol with the same tables at its end and the same deliveries. */
  lemma {:induction false} LoopIsARun(w: World, t: int, campaign: int, assignment: set<int>, turns: seq<L.Turn>)
    returns (evs: seq<Event>)
    requires t in w.tasks && w.tasks[t] == Task(campaign, Idle) && AssignedTo(w, campaign) == assignment
    requires L.Played(w.rows, w.creds, campaign, assignment, turns) && Timed(w.now, turns)
    ensures Legal(w, evs) && AllWorked(w, Run(w, evs), turns)
  {
    if turns == [] {
      evs := [];
    } else {
      var init, turn := turns[..|turns| - 1], turns[|turns| - 1];
      LastTurn(w.rows, w.creds, campaign, assignment, w.now, turns);
      var before := LoopIsARun(w, t, campaign, assignment, init);
      evs := OneTurnMore(w, before, Run(w, before), t, campaign, assignment, init, turn, turns);
    }
  }

  /** How the loop ends: with nothing queued the task leaves; with no credential it leaves the row it has claimed behind. */
  lemma ExitIsARun(w: World, t: int, campaign: int, assignment: set<int>, exit: L.Exit, rows': Rows) returns (evs: seq<Event>)
    requires t in w.tasks && w.tasks[t] == Task(campaign, Idle) && AssignedTo(w, campaign) == assignment
    requires if exit.PausedNoCredential? then
               Pool(rows', w.creds, assignment, w.now) == {} && exists e :: L.LeftClaimed(w.rows, rows', campaign, w.now, e)
             else rows' == w.rows
    ensures Legal(w, evs) && Run(w, evs) == w.(rows := rows', tasks := w.tasks[t := Task(campaign, Gone)])
  {
    if exit.PausedNoCredential? {
      var e :| L.LeftClaimed(w.rows, rows', campaign, w.now, e);
      assert Least(WithStatus(w.rows, campaign, Queued)) == e;
      Two(w, Claim(t), Abandon(t));
      evs := [Claim(t), Abandon(t)];
    } else {
      One(w, Leave(t));
      evs := [Leave(t)];
    }
  }

  lemma Four(w: World, x: Event, y: Event, z: Event, u: Event)
    requires Enabled(w, x) && Enabled(Apply(w, x), y) && Enabled(Apply(Apply(w, x), y), z)
    requires Enabled(Apply(Apply(Apply(w, x), y), z), u)
    ensures Legal(w, [x, y, z, u]) && Run(w, [x, y, z, u]) == Apply(Apply(Apply(Apply(w, x), y), z), u)
  {
    Two(w, x, y);
    Two(Run(w, [x, y]), z, u);
    ThenMore(w, [x, y], [z, u]);
    assert [x, y] + [z, u] == [x, y, z, u];
  }

  /** The worker is gone and has left everything else as it is. */
  ghost predicate Left(w: World, v: World, t: int)
    requires t in w.tasks
  {
    && v.rows == w.rows && v.creds == w.creds && v.now == w.now && v.delivered == w.delivered
    && v.tasks == w.tasks[t := Task(w.tasks[t].campaign, Gone)]
  }

  lemma Quitting(w: World, t: int, quits: Event)
    requires t in w.tasks && Live(w.tasks[t].phase)
    requires quits == Crash(t) || (quits == Abandon(t) && w.tasks[t].phase.Holding? && CampaignPool(w, t) == {})
    ensures Enabled(w, quits) && Left(w, Apply(w, quits), t)
  {
  }

  lemma WaitingAndSweeping(v: World, e: int, wait: nat)
    requires e in v.rows && v.rows[e].status.Sending? && v.rows[e].sendingSince.Some?
    requires v.now + wait - v.rows[e].sendingSince.value > 600_000_000
    ensures Enabled(v, Tick(wait)) && Enabled(Apply(v, Tick(wait)), Sweep)
    ensures var swept := Apply(Apply(v, Tick(wait)), Sweep);
            && swept.tasks == v.tasks && swept.creds == v.creds && swept.delivered == v.delivered
            && e in swept.rows && swept.rows[e] == v.rows[e].(status := Queued, sendingSince := None)
  {
  }

  /**
   A row is not lost with its worker: a crash can hit any worker at any time, and a worker may give up for
   want of a credential; the first sweep after 600 seconds queues its row again, and the worker can restart.
   */
  lemma RowOutlivesWorker(w: World, t: int, quits: Event, wait: nat)
    requires t in w.tasks && Live(w.tasks[t].phase) && w.tasks[t].phase.email in w.rows
    requires quits == Crash(t) || (quits == Abandon(t) && w.tasks[t].phase.Holding? && CampaignPool(w, t) == {})
    requires var row := w.rows[w.tasks[t].phase.email];
             row.status.Sending? && row.sendingSince.Some? && w.now + wait - row.sendingSince.value > 600_000_000
    ensures var evs, e := [quits, Tick(wait), Sweep, Spawn(t)], w.tasks[t].phase.email;
            && Legal(w, evs) && e in Run(w, evs).rows
            && Run(w, evs).rows[e] == w.rows[e].(status := Queued, sendingSince := None)
            && Run(w, evs).tasks == w.tasks[t := Task(w.tasks[t].campaign, Idle)]
            && Run(w, evs).delivered == w.delivered && Run(w, evs).creds == w.creds
  {
    Quitting(w, t, quits);
    var left := Apply(w, quits);
    WaitingAndSweeping(left, w.tasks[t].phase.email, wait);
    assert left.tasks[t := Task(w.tasks[t].campaign, Idle)] == w.tasks[t := Task(w.tasks[t].campaign, Idle)];
    Four(w, quits, Tick(wait), Sweep, Spawn(t));
  }

  /** Users may select rows at any time, and nothing but the rows changes. */
  lemma UsersSelect(w: World, campaign: int, e: int, selected: bool)
    ensures Legal(w, [Select(e, selected)]) && Run(w, [Select(e, selected)]) == w.(rows := SelectionSet(w.rows, e, selected))
    ensures Legal(w, [SelectAll(campaign, selected)])
    ensures Run(w, [SelectAll(campaign, selected)]) == w.(rows := AllSelectionSet(w.rows, campaign, selected))
  {
    One(w, Select(e, selected));
    One(w, SelectAll(campaign, selected));
  }

  lemma UsersDelete(w: World, e: int)
    ensures Legal(w, [Delete(e)]) && Run(w, [Delete(e)]) == w.(rows := DraftDeleted(w.rows, e))
  {
    One(w, Delete(e));
  }

  /** Users may start and cancel a campaign at any time, and nothing but the rows changes. */
  lemma UsersQueue(w: World, campaign: int)
    ensures Legal(w, [QueueDrafts(campaign)]) && Run(w, [QueueDrafts(campaign)]) == w.(rows := QueuedSelected(w.rows, campaign))
    ensures Legal(w, [Cancel(campaign)]) && Run(w, [Cancel(campaign)]) == w.(rows := CancelledQueued(w.rows, campaign))
  {
    One(w, QueueDrafts(campaign));
    One(w, Cancel(campaign));
  }

  /** Users may assign credentials and edit them at any time; both are in force at once and change nothing else. */
  lemma UsersChange(w: World, campaign: int, pool: set<int>, c: int, active: bool, until: Option<int>)
    ensures Legal(w, [Assign(campaign, pool)])
    ensures Run(w, [Assign(campaign, pool)]) == w.(assignment := w.assignment[campaign := pool])
    ensures Legal(w, [EditCredential(c, active, until)])
    ensures c in w.creds ==>
              Run(w, [EditCredential(c, active, until)]) == w.(creds := w.creds[c := Credential(active, until, w.creds[c].dailyLimit)])
  {
    One(w, Assign(campaign, pool));
    One(w, EditCredential(c, active, until));
  }

  /** In a run of the loop no message is taken more than once, beyond the sends that ended in doubt. */
  lemma LoopDeliversOnce(w: World, t: int, campaign: int, assignment: set<int>, turns: seq<L.Turn>, e: int)
    requires Init(w) && t in w.tasks && w.tasks[t] == Task(campaign, Idle) && AssignedTo(w, campaign) == assignment
    requires L.Played(w.rows, w.creds, campaign, assignment, turns) && Timed(w.now, turns)
    ensures multiset(L.TakenRows(turns))[e] <= 1 + DoubtfulRows(turns)[e]
  {
    var evs := LoopIsARun(w, t, campaign, assignment, turns);
    DeliveriesBounded(w, evs);
    assert Exposure(Run(w, evs), e) >= Run(w, evs).delivered[e];
  }
}
