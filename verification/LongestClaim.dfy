/**
 The longest life of a claim: N tasks queue for one credential just after a grant, everybody draws the
 longest gap, and the last in the queue takes the whole send time. Its claim is then exactly 90 N seconds
 plus one send old, so the bound on the age of claims cannot be improved.
 */
module LongestClaim {
  import opened Prelude
  import opened Outreach
  import opened Dispatch
  import opened Pacing

  function StatusAt(claimed: nat, done: nat, e: int): EmailStatus {
    if e <= done then Sent else if e <= claimed then Sending else Queued
  }

  function PhaseAt(claimed: nat, done: nat, t: int): Phase {
    if done <= t < claimed then Bound(t + 1, 0, 0) else Idle
  }

  /** The gate of the only credential: tasks done..claimed wait in order, the last grant was `done` gaps after the first. */
  ghost predicate GateStage(g: Gate, claimed: nat, done: nat)
    requires done <= claimed
  {
    && |g.queue| == claimed - done && (forall i :: 0 <= i < |g.queue| ==> g.queue[i] == done + i)
    && LastGrant(g) == Some(MAX_GAP * done)
    && (g.queue != [] ==> g.wake == MAX_GAP * done + MAX_GAP)
  }

  /** Row 0 was sent at time 0; the first `claimed` of n tasks claimed a row each at time 0 and `done` of them are through. */
  ghost predicate Stage(tw: Timed, n: nat, claimed: nat, done: nat) {
    && done <= claimed <= n
    && tw.w.now == MAX_GAP * done && tw.w.assignment == map[] && tw.w.creds == map[0 := Credential(true, None, None)]
    && (forall e :: e in tw.w.rows <==> 0 <= e <= n) && (forall t :: t in tw.w.tasks <==> 0 <= t < n)
    && (forall e :: e in tw.w.rows ==> tw.w.rows[e].campaign == 0 && tw.w.rows[e].status == StatusAt(claimed, done, e))
    && (forall t :: t in tw.w.tasks ==> tw.w.tasks[t] == Task(0, PhaseAt(claimed, done, t)))
    && 0 in tw.gates && (forall c :: c in tw.gates ==> c == 0) && GateStage(tw.gates[0], claimed, done)
    && tw.due.Keys == {}
  }

  lemma More(tw: Timed, evs: seq<TimedEvent>, ev: TimedEvent, sendTime: nat)
    requires TimedLegal(tw, evs, sendTime) && TimedEnabled(TimedRun(tw, evs, sendTime), ev)
    ensures TimedLegal(tw, evs + [ev], sendTime)
    ensures TimedRun(tw, evs + [ev], sendTime) == TimedApply(TimedRun(tw, evs, sendTime), ev, sendTime)
  {
    assert (evs + [ev])[..|evs|] == evs;
  }

  // ---- claiming ----

  /** Task i has claimed row i + 1 and is about to enter the gate. */
  ghost predicate Claimed(v: Timed, n: nat, i: nat) {
    && i < n && v.w.now == 0 && v.w.assignment == map[] && v.w.creds == map[0 := Credential(true, None, None)]
    && (forall e :: e in v.w.rows <==> 0 <= e <= n) && (forall t :: t in v.w.tasks <==> 0 <= t < n)
    && (forall e :: e in v.w.rows ==> v.w.rows[e].campaign == 0 && v.w.rows[e].status == StatusAt(i + 1, 0, e))
    && (forall t :: t in v.w.tasks ==> v.w.tasks[t] == Task(0, if t == i then Holding(i + 1, 0) else PhaseAt(i, 0, t)))
    && 0 in v.gates && (forall c :: c in v.gates ==> c == 0) && GateStage(v.gates[0], i, 0)
    && v.due.Keys == {}
  }

  lemma ClaimRow(tw: Timed, n: nat, i: nat, sendTime: nat)
    requires Stage(tw, n, i, 0) && i < n
    ensures TimedEnabled(tw, Plain(Claim(i))) && Claimed(TimedApply(tw, Plain(Claim(i)), sendTime), n, i)
  {
    var queued := WithStatus(tw.w.rows, 0, Queued);
    assert i + 1 in tw.w.rows && i in tw.w.tasks && i + 1 in queued;
    assert Least(queued) == i + 1;
  }

  lemma EnterQueue(v: Timed, n: nat, i: nat, sendTime: nat)
    requires Claimed(v, n, i)
    ensures TimedEnabled(v, Enter(i, 0, MAX_GAP)) && Stage(TimedApply(v, Enter(i, 0, MAX_GAP), sendTime), n, i + 1, 0)
  {
    assert 0 in CampaignPool(v.w, i);
    assert GateStage(TimedApply(v, Enter(i, 0, MAX_GAP), sendTime).gates[0], i + 1, 0);
  }

  lemma ClaimNext(tw: Timed, n: nat, i: nat, sendTime: nat)
    requires Stage(tw, n, i, 0) && i < n
    ensures TimedEnabled(tw, Plain(Claim(i)))
    ensures var v := TimedApply(tw, Plain(Claim(i)), sendTime);
            && TimedEnabled(v, Enter(i, 0, MAX_GAP))
            && Stage(TimedApply(v, Enter(i, 0, MAX_GAP), sendTime), n, i + 1, 0)
  {
    ClaimRow(tw, n, i, sendTime);
    EnterQueue(TimedApply(tw, Plain(Claim(i)), sendTime), n, i, sendTime);
  }

  // ---- serving ----

  /** The longest gap passes and the head of the queue is granted its slot. */
  ghost predicate Granted(tw: Timed, n: nat, k: nat, sendTime: nat) {
    && k < n && tw.w.now == MAX_GAP * k + MAX_GAP && tw.w.assignment == map[] && tw.w.creds == map[0 := Credential(true, None, None)]
    && (forall e :: e in tw.w.rows <==> 0 <= e <= n) && (forall t :: t in tw.w.tasks <==> 0 <= t < n)
    && (forall e :: e in tw.w.rows ==> tw.w.rows[e].campaign == 0 && tw.w.rows[e].status == StatusAt(n, k, e))
    && (forall t :: t in tw.w.tasks ==> tw.w.tasks[t] == Task(0, PhaseAt(n, k, t)))
    && 0 in tw.gates && (forall c :: c in tw.gates ==> c == 0) && GateStage(tw.gates[0], n, k + 1)
    && tw.due.Keys == {k} && tw.due[k] == tw.w.now + sendTime
  }

  lemma GrantNext(tw: Timed, n: nat, k: nat, sendTime: nat)
    requires Stage(tw, n, n, k) && k < n
    ensures TimedEnabled(tw, Elapse(MAX_GAP))
    ensures var v := TimedApply(tw, Elapse(MAX_GAP), sendTime);
            && TimedEnabled(v, Grant(k, MAX_GAP))
            && Granted(TimedApply(v, Grant(k, MAX_GAP), sendTime), n, k, sendTime)
  {
    var v := TimedApply(tw, Elapse(MAX_GAP), sendTime);
    assert k in tw.w.tasks && tw.gates[0].queue[0] == k;
    var u := TimedApply(v, Grant(k, MAX_GAP), sendTime);
    assert GateStage(u.gates[0], n, k + 1);
  }

  /** The server has taken the message of task k, and the row is not yet marked. */
  ghost predicate Taken(tw: Timed, n: nat, k: nat) {
    && k < n && tw.w.now == MAX_GAP * k + MAX_GAP && tw.w.assignment == map[] && tw.w.creds == map[0 := Credential(true, None, None)]
    && (forall e :: e in tw.w.rows <==> 0 <= e <= n) && (forall t :: t in tw.w.tasks <==> 0 <= t < n)
    && (forall e :: e in tw.w.rows ==> tw.w.rows[e].campaign == 0 && tw.w.rows[e].status == StatusAt(n, k, e))
    && (forall t :: t in tw.w.tasks ==> tw.w.tasks[t] == Task(0, if t == k then Accepted(k + 1, 0, 0) else PhaseAt(n, k, t)))
    && 0 in tw.gates && (forall c :: c in tw.gates ==> c == 0) && GateStage(tw.gates[0], n, k + 1)
    && tw.due.Keys == {k}
  }

  lemma TakeMessage(tw: Timed, n: nat, k: nat, sendTime: nat)
    requires Granted(tw, n, k, sendTime)
    ensures TimedEnabled(tw, Outcome(Deliver(k))) && Taken(TimedApply(tw, Outcome(Deliver(k)), sendTime), n, k)
  {
    assert k in tw.w.tasks;
  }

  lemma MarkRow(tw: Timed, n: nat, k: nat, sendTime: nat)
    requires Taken(tw, n, k)
    ensures TimedEnabled(tw, Outcome(Confirm(k))) && Stage(TimedApply(tw, Outcome(Confirm(k)), sendTime), n, n, k + 1)
  {
    assert k in tw.w.tasks && k + 1 in tw.w.rows;
  }

  lemma FinishNext(tw: Timed, n: nat, k: nat, sendTime: nat)
    requires Granted(tw, n, k, sendTime)
    ensures TimedEnabled(tw, Outcome(Deliver(k)))
    ensures var v := TimedApply(tw, Outcome(Deliver(k)), sendTime);
            && TimedEnabled(v, Outcome(Confirm(k)))
            && Stage(TimedApply(v, Outcome(Confirm(k)), sendTime), n, n, k + 1)
  {
    TakeMessage(tw, n, k, sendTime);
    MarkRow(TimedApply(tw, Outcome(Deliver(k)), sendTime), n, k, sendTime);
  }

  // ---- the run ----

  function StartRows(n: nat): Rows
    decreases n
  {
    var row := EmailRow(0, true, Queued, None, None, None);
    if n == 0 then map[0 := row] else StartRows(n - 1)[n := row]
  }

  function StartTasks(n: nat): map<int, Task> {
    if n == 0 then map[] else StartTasks(n - 1)[n - 1 := Task(0, Idle)]
  }

  function StartTimed(n: nat): Timed {
    Timed(World(StartRows(n), map[0 := Credential(true, None, None)], map[], StartTasks(n), 0, multiset{}, multiset{}, multiset{}),
          map[], map[])
  }

  lemma {:induction false} StartContents(n: nat)
    ensures forall e :: e in StartRows(n) <==> 0 <= e <= n
    ensures forall e :: e in StartRows(n) ==> StartRows(n)[e] == EmailRow(0, true, Queued, None, None, None)
    ensures forall t :: t in StartTasks(n) <==> 0 <= t < n
    ensures forall t :: t in StartTasks(n) ==> StartTasks(n)[t] == Task(0, Idle)
    ensures |StartTasks(n)| == n
  {
    if n > 0 {
      StartContents(n - 1);
      assert StartTasks(n).Keys == StartTasks(n - 1).Keys + {n - 1};
      assert |StartTasks(n).Keys| == |StartTasks(n)| && |StartTasks(n - 1).Keys| == |StartTasks(n - 1)|;
    }
  }

  /** Task 0 claims row 0 and is granted its slot at once, as nothing was sent through the credential before. */
  ghost predicate FirstGranted(tw: Timed, n: nat, sendTime: nat) {
    && n > 0 && tw.w.now == 0 && tw.w.assignment == map[] && tw.w.creds == map[0 := Credential(true, None, None)]
    && (forall e :: e in tw.w.rows <==> 0 <= e <= n) && (forall t :: t in tw.w.tasks <==> 0 <= t < n)
    && (forall e :: e in tw.w.rows ==> tw.w.rows[e].campaign == 0 && tw.w.rows[e].status == if e == 0 then Sending else Queued)
    && (forall t :: t in tw.w.tasks ==> tw.w.tasks[t] == Task(0, if t == 0 then Bound(0, 0, 0) else Idle))
    && 0 in tw.gates && (forall c :: c in tw.gates ==> c == 0) && tw.gates[0].queue == [] && LastGrant(tw.gates[0]) == Some(0)
    && tw.due.Keys == {0} && tw.due[0] == sendTime
  }

  lemma FirstClaim(n: nat, sendTime: nat)
    requires n > 0
    ensures TimedInit(StartTimed(n)) && TimedEnabled(StartTimed(n), Plain(Claim(0)))
    ensures var v := TimedApply(StartTimed(n), Plain(Claim(0)), sendTime);
            && v.w.tasks == StartTasks(n)[0 := Task(0, Holding(0, 0))]
            && v.w.rows == StartRows(n)[0 := EmailRow(0, true, Sending, Some(0), None, None)]
            && v.gates == map[] && v.due == map[] && v.w.now == 0 && v.w.assignment == map[] && v.w.creds == StartTimed(n).w.creds
  {
    var tw := StartTimed(n);
    StartContents(n);
    assert 0 in WithStatus(tw.w.rows, 0, Queued) && 0 in tw.w.tasks;
    assert Least(WithStatus(tw.w.rows, 0, Queued)) == 0;
  }

  lemma FirstSlot(tw: Timed, n: nat, sendTime: nat)
    requires n > 0 && tw.w.tasks == StartTasks(n)[0 := Task(0, Holding(0, 0))]
    requires tw.w.rows == StartRows(n)[0 := EmailRow(0, true, Sending, Some(0), None, None)]
    requires tw.gates == map[] && tw.due == map[] && tw.w.now == 0 && tw.w.assignment == map[]
    requires tw.w.creds == map[0 := Credential(true, None, None)]
    ensures TimedEnabled(tw, Enter(0, 0, MIN_GAP))
    ensures var v := TimedApply(tw, Enter(0, 0, MIN_GAP), sendTime);
            TimedEnabled(v, Grant(0, MIN_GAP)) && FirstGranted(TimedApply(v, Grant(0, MIN_GAP), sendTime), n, sendTime)
  {
    StartContents(n);
    assert 0 in CampaignPool(tw.w, 0);
    var v := TimedApply(tw, Enter(0, 0, MIN_GAP), sendTime);
    assert v.gates[0] == Gate([0], 0, []);
    assert v.gates[0].queue[1..] == [];
  }

  lemma FirstGrant(n: nat, sendTime: nat) returns (evs: seq<TimedEvent>)
    requires n > 0
    ensures TimedInit(StartTimed(n)) && TimedLegal(StartTimed(n), evs, sendTime)
    ensures FirstGranted(TimedRun(StartTimed(n), evs, sendTime), n, sendTime)
  {
    var tw := StartTimed(n);
    FirstClaim(n, sendTime);
    assert TimedRun(tw, [], sendTime) == tw;
    More(tw, [], Plain(Claim(0)), sendTime);
    var one := [] + [Plain(Claim(0))];
    FirstSlot(TimedRun(tw, one, sendTime), n, sendTime);
    More(tw, one, Enter(0, 0, MIN_GAP), sendTime);
    More(tw, one + [Enter(0, 0, MIN_GAP)], Grant(0, MIN_GAP), sendTime);
    evs := one + [Enter(0, 0, MIN_GAP)] + [Grant(0, MIN_GAP)];
  }

  // ---- runs from any start ----

  lemma GrantAfter(tw: Timed, n: nat, k: nat, before: seq<TimedEvent>, sendTime: nat) returns (evs: seq<TimedEvent>)
    requires TimedLegal(tw, before, sendTime) && Stage(TimedRun(tw, before, sendTime), n, n, k) && k < n
    ensures TimedLegal(tw, evs, sendTime) && Granted(TimedRun(tw, evs, sendTime), n, k, sendTime)
  {
    GrantNext(TimedRun(tw, before, sendTime), n, k, sendTime);
    More(tw, before, Elapse(MAX_GAP), sendTime);
    More(tw, before + [Elapse(MAX_GAP)], Grant(k, MAX_GAP), sendTime);
    evs := before + [Elapse(MAX_GAP)] + [Grant(k, MAX_GAP)];
  }

  lemma FinishAfter(tw: Timed, n: nat, k: nat, granted: seq<TimedEvent>, sendTime: nat) returns (evs: seq<TimedEvent>)
    requires TimedLegal(tw, granted, sendTime) && Granted(TimedRun(tw, granted, sendTime), n, k, sendTime)
    ensures TimedLegal(tw, evs, sendTime) && Stage(TimedRun(tw, evs, sendTime), n, n, k + 1)
  {
    FinishNext(TimedRun(tw, granted, sendTime), n, k, sendTime);
    More(tw, granted, Outcome(Deliver(k)), sendTime);
    More(tw, granted + [Outcome(Deliver(k))], Outcome(Confirm(k)), sendTime);
    evs := granted + [Outcome(Deliver(k))] + [Outcome(Confirm(k))];
  }

  lemma ServeAfter(tw: Timed, n: nat, k: nat, next: nat, before: seq<TimedEvent>, sendTime: nat) returns (evs: seq<TimedEvent>)
    requires TimedLegal(tw, before, sendTime) && Stage(TimedRun(tw, before, sendTime), n, n, k) && k < n && next == k + 1
    ensures TimedLegal(tw, evs, sendTime) && Stage(TimedRun(tw, evs, sendTime), n, n, next)
  {
    var granted := GrantAfter(tw, n, k, before, sendTime);
    evs := FinishAfter(tw, n, k, granted, sendTime);
  }

  lemma {:induction false} AllServed(tw: Timed, n: nat, done: nat, claimed: seq<TimedEvent>, sendTime: nat) returns (evs: seq<TimedEvent>)
    requires done < n && TimedLegal(tw, claimed, sendTime) && Stage(TimedRun(tw, claimed, sendTime), n, n, 0)
    ensures TimedLegal(tw, evs, sendTime) && Stage(TimedRun(tw, evs, sendTime), n, n, done)
  {
    if done == 0 {
      evs := claimed;
    } else {
      var k := done - 1;
      evs := AllServed(tw, n, k, claimed, sendTime);
      evs := ServeAfter(tw, n, k, done, evs, sendTime);
    }
  }

  lemma ClaimAfter(tw: Timed, n: nat, i: nat, next: nat, before: seq<TimedEvent>, sendTime: nat) returns (evs: seq<TimedEvent>)
    requires TimedLegal(tw, before, sendTime) && Stage(TimedRun(tw, before, sendTime), n, i, 0) && i < n && next == i + 1
    ensures TimedLegal(tw, evs, sendTime) && Stage(TimedRun(tw, evs, sendTime), n, next, 0)
  {
    ClaimNext(TimedRun(tw, before, sendTime), n, i, sendTime);
    More(tw, before, Plain(Claim(i)), sendTime);
    More(tw, before + [Plain(Claim(i))], Enter(i, 0, MAX_GAP), sendTime);
    evs := before + [Plain(Claim(i))] + [Enter(i, 0, MAX_GAP)];
  }

  lemma {:induction false} AllClaim(tw: Timed, n: nat, claimed: nat, warm: seq<TimedEvent>, sendTime: nat) returns (evs: seq<TimedEvent>)
    requires claimed <= n && TimedLegal(tw, warm, sendTime) && Stage(TimedRun(tw, warm, sendTime), n, 0, 0)
    ensures TimedLegal(tw, evs, sendTime) && Stage(TimedRun(tw, evs, sendTime), n, claimed, 0)
  {
    if claimed == 0 {
      evs := warm;
    } else {
      var i := claimed - 1;
      evs := AllClaim(tw, n, i, warm, sendTime);
      evs := ClaimAfter(tw, n, i, claimed, evs, sendTime);
    }
  }

  lemma WarmAfter(tw: Timed, n: nat, first: seq<TimedEvent>, sendTime: nat) returns (evs: seq<TimedEvent>)
    requires TimedLegal(tw, first, sendTime) && FirstGranted(TimedRun(tw, first, sendTime), n, sendTime)
    ensures TimedLegal(tw, evs, sendTime) && Stage(TimedRun(tw, evs, sendTime), n, 0, 0)
  {
    FirstSent(TimedRun(tw, first, sendTime), n, sendTime);
    More(tw, first, Outcome(Deliver(0)), sendTime);
    More(tw, first + [Outcome(Deliver(0))], Outcome(Confirm(0)), sendTime);
    evs := first + [Outcome(Deliver(0))] + [Outcome(Confirm(0))];
  }

  lemma FirstSent(tw: Timed, n: nat, sendTime: nat)
    requires FirstGranted(tw, n, sendTime)
    ensures TimedEnabled(tw, Outcome(Deliver(0)))
    ensures var v := TimedApply(tw, Outcome(Deliver(0)), sendTime);
            TimedEnabled(v, Outcome(Confirm(0))) && Stage(TimedApply(v, Outcome(Confirm(0)), sendTime), n, 0, 0)
  {
    assert 0 in tw.w.tasks && 0 in tw.w.rows;
  }

  /** Task t is live with a claim as old as the bound allows. */
  ghost predicate AsOldAsAllowed(w: World, t: int, n: nat, sendTime: nat) {
    t in w.tasks && Live(w.tasks[t].phase) && w.now - w.tasks[t].phase.since == ClaimLimit(n, sendTime)
  }

  lemma LastSend(tw: Timed, n: nat, last: nat, sendTime: nat)
    requires n == last + 1 && Granted(tw, n, last, sendTime)
    ensures TimedEnabled(tw, Elapse(sendTime))
    ensures AsOldAsAllowed(TimedApply(tw, Elapse(sendTime), sendTime).w, last, n, sendTime)
  {
    assert last in tw.w.tasks && tw.gates[0].queue == [];
  }

  lemma LastAfter(tw: Timed, n: nat, last: nat, claimed: seq<TimedEvent>, sendTime: nat) returns (evs: seq<TimedEvent>)
    requires n == last + 1 && TimedLegal(tw, claimed, sendTime) && Stage(TimedRun(tw, claimed, sendTime), n, n, 0)
    ensures TimedLegal(tw, evs, sendTime) && AsOldAsAllowed(TimedRun(tw, evs, sendTime).w, last, n, sendTime)
  {
    var served := AllServed(tw, n, last, claimed, sendTime);
    var granted := GrantAfter(tw, n, last, served, sendTime);
    LastSend(TimedRun(tw, granted, sendTime), n, last, sendTime);
    More(tw, granted, Elapse(sendTime), sendTime);
    evs := granted + [Elapse(sendTime)];
  }

  lemma StartOf(n: nat, sendTime: nat) returns (evs: seq<TimedEvent>)
    requires n > 0
    ensures TimedInit(StartTimed(n)) && TimedLegal(StartTimed(n), evs, sendTime)
    ensures Stage(TimedRun(StartTimed(n), evs, sendTime), n, n, 0)
  {
    var first := FirstGrant(n, sendTime);
    var warm := WarmAfter(StartTimed(n), n, first, sendTime);
    evs := AllClaim(StartTimed(n), n, n, warm, sendTime);
  }

  /** For any number of tasks and any send time some claim lives exactly as long as the bound allows. */
  lemma ClaimLimitIsReached(n: nat, sendTime: nat) returns (evs: seq<TimedEvent>, last: nat)
    requires n > 0
    ensures TimedInit(StartTimed(n)) && |StartTimed(n).w.tasks| == n && TimedLegal(StartTimed(n), evs, sendTime)
    ensures AsOldAsAllowed(TimedRun(StartTimed(n), evs, sendTime).w, last, n, sendTime)
  {
    StartContents(n);
    last := n - 1;
    var claimed := StartOf(n, sendTime);
    evs := LastAfter(StartTimed(n), n, last, claimed, sendTime);
  }
}
