/**
 The dispatch protocol: any number of tasks claim rows, choose a credential, send,
 and settle the row, while a sweep requeues stuck rows, the clock runs, users edit
 the campaign and any task may die at any point.

 One event is one committed database session, one SMTP outcome or one tick. The
 three multisets of a World are bookkeeping of the run; no step reads them.
 */
module Dispatch {
  import opened Prelude
  import opened Outreach

  datatype Phase =
    | Gone                                                  // no live task
    | Idle                                                  // at the top of the loop
    | Holding(email: int, since: int)                       // row claimed, no credential yet
    | Bound(email: int, since: int, cred: int)              // waiting for the slot, or talking to the server
    | Accepted(email: int, since: int, cred: int)           // the server took the message, row not marked

  datatype Task = Task(campaign: int, phase: Phase)

  datatype World = World(
    rows: Rows,
    creds: Credentials,
    assignment: map<int, set<int>>,
    tasks: map<int, Task>,
    now: int,
    delivered: multiset<int>,    // messages accepted by a server, per row
    ambiguous: multiset<int>,    // crashes and exceptions between acceptance and mark
    premature: multiset<int>)    // sweeps of a row that a live task still held

  datatype Event =
    | Spawn(task: int)
    | Leave(task: int)
    | Claim(task: int)
    | Pick(task: int, cred: int)
    | Abandon(task: int)
    | Deliver(task: int)
    | Confirm(task: int)
    | Refuse(task: int, error: SendError)
    | Confuse(task: int, error: SendError)
    | Crash(task: int)
    | Sweep
    | Tick(elapsed: nat)
    | QueueDrafts(campaign: int)
    | Cancel(campaign: int)
    | Select(email: int, selected: bool)
    | SelectAll(campaign: int, selected: bool)
    | Delete(email: int)
    | Assign(campaign: int, pool: set<int>)
    | EditCredential(cred: int, active: bool, cooldownUntil: Option<int>)

  /** Steps of one task, as opposed to the sweep, the clock and the users. */
  predicate IsTaskEvent(ev: Event) {
    ev.Spawn? || ev.Leave? || ev.Claim? || ev.Pick? || ev.Abandon? || ev.Deliver? || ev.Confirm? || ev.Refuse?
    || ev.Confuse? || ev.Crash?
  }

  predicate Live(p: Phase) {
    p.Holding? || p.Bound? || p.Accepted?
  }

  predicate Unsent(p: Phase) {
    p.Holding? || p.Bound?
  }

  /** The live tasks that believe they own row e. */
  function Owners(w: World, e: int): set<int> {
    set t | t in w.tasks && Live(w.tasks[t].phase) && w.tasks[t].phase.email == e
  }

  /** The owners of row e whose message the server has not taken yet. */
  function Senders(w: World, e: int): set<int> {
    set t | t in w.tasks && Unsent(w.tasks[t].phase) && w.tasks[t].phase.email == e
  }

  /** The tasks between the choice of credential c and the end of that send. */
  function InFlight(w: World, c: int): set<int> {
    set t | t in w.tasks && (w.tasks[t].phase.Bound? || w.tasks[t].phase.Accepted?) && w.tasks[t].phase.cred == c
  }

  function AssignedTo(w: World, campaign: int): set<int> {
    if campaign in w.assignment then w.assignment[campaign] else {}
  }

  function CampaignPool(w: World, t: int): set<int>
    requires t in w.tasks
  {
    Pool(w.rows, w.creds, AssignedTo(w, w.tasks[t].campaign), w.now)
  }

  function PhaseOf(w: World, t: int): Phase {
    if t in w.tasks then w.tasks[t].phase else Gone
  }

  predicate Enabled(w: World, ev: Event) {
    match ev
    case Spawn(t) => t in w.tasks && PhaseOf(w, t).Gone?
    case Leave(t) => t in w.tasks && PhaseOf(w, t).Idle?
    case Claim(t) => t in w.tasks && PhaseOf(w, t).Idle? && WithStatus(w.rows, w.tasks[t].campaign, Queued) != {}
    case Pick(t, c) => t in w.tasks && PhaseOf(w, t).Holding? && c in CampaignPool(w, t)
    case Abandon(t) => t in w.tasks && PhaseOf(w, t).Holding? && CampaignPool(w, t) == {}
    case Deliver(t) => t in w.tasks && PhaseOf(w, t).Bound?
    case Confirm(t) => t in w.tasks && PhaseOf(w, t).Accepted?
    case Refuse(t, _) => t in w.tasks && PhaseOf(w, t).Bound?
    case Confuse(t, _) => t in w.tasks && PhaseOf(w, t).Accepted?
    case Crash(t) => t in w.tasks && !PhaseOf(w, t).Gone?
    case _ => true
  }

  function Move(w: World, t: int, p: Phase): World
    requires t in w.tasks
  {
    w.(tasks := w.tasks[t := w.tasks[t].(phase := p)])
  }

  function Apply(w: World, ev: Event): World
    requires Enabled(w, ev)
  {
    match ev
    case Spawn(t) => Move(w, t, Idle)
    case Leave(t) => Move(w, t, Gone)
    case Claim(t) =>
      var e := Least(WithStatus(w.rows, w.tasks[t].campaign, Queued));
      Move(w, t, Holding(e, w.now)).(rows := Claimed(w.rows, e, w.now))
    case Pick(t, c) =>
      var p := w.tasks[t].phase;
      Move(w, t, Bound(p.email, p.since, c))
    case Abandon(t) => Move(w, t, Gone)
    case Deliver(t) =>
      var p := w.tasks[t].phase;
      Move(w, t, Accepted(p.email, p.since, p.cred)).(delivered := w.delivered + multiset{p.email})
    case Confirm(t) =>
      var p := w.tasks[t].phase;
      Move(w, t, Idle).(rows := MarkedSent(w.rows, p.email, p.cred, w.now))
    case Refuse(t, error) =>
      var p := w.tasks[t].phase;
      Move(w, t, Idle).(
        rows := Settled(w.rows, p.email, p.cred, error),
        creds := Penalised(w.creds, p.cred, error, w.now))
    case Confuse(t, error) =>
      var p := w.tasks[t].phase;
      Move(w, t, Idle).(
        rows := Settled(w.rows, p.email, p.cred, error),
        creds := Penalised(w.creds, p.cred, error, w.now),
        ambiguous := w.ambiguous + multiset{p.email})
    case Crash(t) =>
      var p := w.tasks[t].phase;
      Move(w, t, Gone).(ambiguous := if p.Accepted? then w.ambiguous + multiset{p.email} else w.ambiguous)
    case Sweep =>
      var held := set e | e in StuckRows(w.rows, w.now) && Owners(w, e) != {};
      w.(rows := Recovered(w.rows, w.now), premature := w.premature + multiset(held))
    case Tick(d) => w.(now := w.now + d)
    case QueueDrafts(cid) => w.(rows := QueuedSelected(w.rows, cid))
    case Cancel(cid) => w.(rows := CancelledQueued(w.rows, cid))
    case Select(e, b) => w.(rows := SelectionSet(w.rows, e, b))
    case SelectAll(cid, b) => w.(rows := AllSelectionSet(w.rows, cid, b))
    case Delete(e) => w.(rows := DraftDeleted(w.rows, e))
    case Assign(cid, pool) => w.(assignment := w.assignment[cid := pool])
    case EditCredential(c, active, until) =>
      if c in w.creds then w.(creds := w.creds[c := w.creds[c].(active := active, cooldownUntil := until)]) else w
  }

  // ---- what a step does to a row and to the tallies ----

  /** The send of row e ends with this error. */
  predicate EndsWith(w: World, ev: Event, e: int)
    requires Enabled(w, ev)
  {
    (ev.Refuse? || ev.Confuse?) && w.tasks[ev.task].phase.email == e
  }

  /** The statuses a row can take in a step, each with all the events that lead there. */
  lemma StatusMoves(w: World, ev: Event, e: int)
    requires Enabled(w, ev) && e in w.rows && e in Apply(w, ev).rows
    ensures var before, after := w.rows[e], Apply(w, ev).rows[e];
            && (after.status.Sending? && !before.status.Sending? ==>
                  ev.Claim? && before.status.Queued? && before.campaign == w.tasks[ev.task].campaign && after.sendingSince == Some(w.now))
            && (after.status.Sent? && !before.status.Sent? ==> ev.Confirm? && w.tasks[ev.task].phase.email == e)
            && (after.status.Queued? && !before.status.Queued? ==>
                  || (EndsWith(w, ev, e) && (ev.error.AuthError? || ev.error.Network?
                                             || (ev.error.Response? && ev.error.code in {421, 450, 451})))
                  || (ev.Sweep? && before.status.Sending? && before.sendingSince.Some?
                      && w.now - before.sendingSince.value > 600_000_000)
                  || (ev.QueueDrafts? && before.status.Draft? && before.selected && before.campaign == ev.campaign))
            && (after.status.Failed? && !before.status.Failed? ==>
                  EndsWith(w, ev, e) || (ev.Cancel? && before.status.Queued? && before.campaign == ev.campaign))
            && (after.status.Draft? && !before.status.Draft? ==>
                  before.status.Queued? && !after.selected && ((ev.Select? && ev.email == e) || (ev.SelectAll? && ev.campaign == before.campaign)))
  {
  }

  /** And conversely: each of these events takes the row there. */
  lemma EventMovesRow(w: World, ev: Event, e: int)
    requires Enabled(w, ev) && e in w.rows
    ensures var before, v := w.rows[e], Apply(w, ev);
            && (ev.Confirm? && w.tasks[ev.task].phase.email == e ==>
                  e in v.rows && v.rows[e] == before.(status := Sent, sentAt := Some(w.now), credential := Some(w.tasks[ev.task].phase.cred)))
            && (EndsWith(w, ev, e) ==>
                  && e in v.rows && (v.rows[e].status.Queued? || v.rows[e].status.Failed?)
                  && (v.rows[e].status.Queued? <==>
                        ev.error.AuthError? || ev.error.Network? || (ev.error.Response? && ev.error.code in {421, 450, 451})))
            && (ev.Sweep? && before.status.Sending? && before.sendingSince.Some? && w.now - before.sendingSince.value > 600_000_000 ==>
                  e in v.rows && v.rows[e] == before.(status := Queued, sendingSince := None))
            && (ev.QueueDrafts? && before.status.Draft? && before.selected && before.campaign == ev.campaign ==>
                  e in v.rows && v.rows[e].status.Queued?)
            && (ev.Cancel? && before.status.Queued? && before.campaign == ev.campaign ==> e in v.rows && v.rows[e].status.Failed?)
            && (ev.Select? && ev.email == e && !ev.selected && before.status.Queued? ==> e in v.rows && v.rows[e].status.Draft?)
            && (e !in v.rows <==> ev.Delete? && ev.email == e && before.status.Draft?)
  {
  }

  /** A claim takes the lowest queued row of the task's campaign. */
  lemma ClaimTakesLowest(w: World, t: int)
    requires Enabled(w, Claim(t))
    ensures var v := Apply(w, Claim(t)); var e := v.tasks[t].phase.email;
            && v.tasks[t].phase == Holding(e, w.now) && e in w.rows && e in v.rows && v.rows[e].status.Sending?
            && w.rows[e].status.Queued? && w.rows[e].campaign == w.tasks[t].campaign
            && forall x :: x in w.rows && w.rows[x].status.Queued? && w.rows[x].campaign == w.tasks[t].campaign ==> e <= x
  {
    assert forall x :: x in w.rows && w.rows[x].status.Queued? && w.rows[x].campaign == w.tasks[t].campaign ==>
             x in WithStatus(w.rows, w.tasks[t].campaign, Queued);
  }

  /**
   What the three tallies count: a delivery is the server taking the message; a step is ambiguous when the
   task crashes or meets an exception after that; a sweep is premature when it requeues a row a live task holds.
   */
  lemma StepTallies(w: World, ev: Event, e: int)
    requires Enabled(w, ev)
    ensures var v := Apply(w, ev);
            && v.delivered[e] == w.delivered[e] + (if ev.Deliver? && w.tasks[ev.task].phase.email == e then 1 else 0)
            && v.ambiguous[e] == w.ambiguous[e]
                 + (if (ev.Confuse? || ev.Crash?) && w.tasks[ev.task].phase.Accepted? && w.tasks[ev.task].phase.email == e then 1 else 0)
            && v.premature[e] == w.premature[e]
                 + (if ev.Sweep? && e in w.rows && w.rows[e].status.Sending? && w.rows[e].sendingSince.Some?
                       && w.now - w.rows[e].sendingSince.value > 600_000_000
                       && exists t :: t in w.tasks && Live(w.tasks[t].phase) && w.tasks[t].phase.email == e
                    then 1 else 0)
  {
    if ev.Sweep? {
      var held := set x | x in StuckRows(w.rows, w.now) && Owners(w, x) != {};
      assert multiset(held)[e] == if e in held then 1 else 0;
      if t :| t in w.tasks && Live(w.tasks[t].phase) && w.tasks[t].phase.email == e {
        assert t in Owners(w, e);
      }
      if Owners(w, e) != {} {
        var t := Member(Owners(w, e));
      }
    }
  }

  /** A run starts with no live claim; rows may be in any status, orphaned SENDING ones included. */
  ghost predicate Init(w: World) {
    && (forall t :: t in w.tasks ==> !Live(w.tasks[t].phase))
    && w.delivered == multiset{} && w.ambiguous == multiset{} && w.premature == multiset{}
  }

  predicate Legal(w: World, evs: seq<Event>)
    decreases |evs|, 0
  {
    evs == [] || (Legal(w, evs[..|evs| - 1]) && Enabled(Run(w, evs[..|evs| - 1]), evs[|evs| - 1]))
  }

  function Run(w: World, evs: seq<Event>): World
    requires Legal(w, evs)
    decreases |evs|, 1
  {
    if evs == [] then w else Apply(Run(w, evs[..|evs| - 1]), evs[|evs| - 1])
  }

  /** Every live claim is at most `limit` old. */
  ghost predicate Timely(w: World, limit: int) {
    forall t :: t in w.tasks && Live(w.tasks[t].phase) ==> w.now - w.tasks[t].phase.since <= limit
  }

  /** Timely in every state the run passes through. */
  ghost predicate AlwaysTimely(w: World, evs: seq<Event>, limit: int)
    requires Legal(w, evs)
  {
    Timely(Run(w, evs), limit) && (evs != [] ==> AlwaysTimely(w, evs[..|evs| - 1], limit))
  }

  // ---- deliveries ----

  /** Row e can still be claimed by somebody, now or after a sweep of an orphan. */
  predicate Claimable(w: World, e: int) {
    e in w.rows && (w.rows[e].status in {Draft, Queued} || (w.rows[e].status == Sending && Owners(w, e) == {}))
  }

  /** Deliveries made, plus those that running sends or the row's status may still cause. */
  function Exposure(w: World, e: int): nat {
    w.delivered[e] + |Senders(w, e)| + if Claimable(w, e) then 1 else 0
  }

  ghost predicate ExposureBounded(w: World) {
    forall e :: Exposure(w, e) <= 1 + w.ambiguous[e] + w.premature[e]
  }

  lemma MoveOwners(w: World, t: int, p: Phase, e: int)
    requires t in w.tasks
    ensures Owners(Move(w, t, p), e) ==
            if Live(p) && p.email == e then Owners(w, e) + {t} else Owners(w, e) - {t}
    ensures Senders(Move(w, t, p), e) ==
            if Unsent(p) && p.email == e then Senders(w, e) + {t} else Senders(w, e) - {t}
  {
  }

  /** How one task's step changes who owns row e and who may still send it. */
  lemma TaskStepOwners(w: World, ev: Event, e: int)
    requires Enabled(w, ev) && IsTaskEvent(ev)
    ensures var w' := Apply(w, ev); var t := ev.task; var p, q := w.tasks[t].phase, w'.tasks[t].phase;
            && Owners(w', e) == (if Live(q) && q.email == e then Owners(w, e) + {t} else Owners(w, e) - {t})
            && |Senders(w', e)| == |Senders(w, e)|
               - (if Unsent(p) && p.email == e then 1 else 0) + (if Unsent(q) && q.email == e then 1 else 0)
  {
    var w' := Apply(w, ev);
    var t := ev.task;
    var q := w'.tasks[t].phase;
    assert w'.tasks == Move(w, t, q).tasks;
    MoveOwners(w, t, q, e);
    assert Owners(w', e) == Owners(Move(w, t, q), e);
    assert Senders(w', e) == Senders(Move(w, t, q), e);
    assert t in Senders(w, e) <==> Unsent(w.tasks[t].phase) && w.tasks[t].phase.email == e;
  }

  lemma ClaimingStepExposure(w: World, ev: Event, e: int)
    requires Enabled(w, ev)
    requires ev.Spawn? || ev.Leave? || ev.Claim? || ev.Pick? || ev.Abandon? || ev.Crash?
    ensures Exposure(Apply(w, ev), e) - Apply(w, ev).ambiguous[e] <= Exposure(w, e) - w.ambiguous[e]
  {
    TaskStepOwners(w, ev, e);
    assert ev.task in Owners(w, e) <==> Live(w.tasks[ev.task].phase) && w.tasks[ev.task].phase.email == e;
  }

  lemma SendingStepExposure(w: World, ev: Event, e: int)
    requires Enabled(w, ev)
    requires ev.Deliver? || ev.Confirm? || ev.Refuse? || ev.Confuse?
    ensures Exposure(Apply(w, ev), e) - Apply(w, ev).ambiguous[e] <= Exposure(w, e) - w.ambiguous[e]
  {
    TaskStepOwners(w, ev, e);
    var p := w.tasks[ev.task].phase;
    assert ev.task in Owners(w, e) <==> p.email == e;
  }

  lemma SharedStepExposure(w: World, ev: Event, e: int)
    requires Enabled(w, ev)
    requires !IsTaskEvent(ev)
    requires Exposure(w, e) <= 1 + w.ambiguous[e] + w.premature[e]
    ensures Exposure(Apply(w, ev), e) <= 1 + Apply(w, ev).ambiguous[e] + Apply(w, ev).premature[e]
  {
    var w' := Apply(w, ev);
    assert Owners(w', e) == Owners(w, e);
    assert Senders(w', e) == Senders(w, e);
  }

  lemma StepExposure(w: World, ev: Event)
    requires Enabled(w, ev) && ExposureBounded(w)
    ensures ExposureBounded(Apply(w, ev))
  {
    forall e ensures Exposure(Apply(w, ev), e) <= 1 + Apply(w, ev).ambiguous[e] + Apply(w, ev).premature[e] {
      if !IsTaskEvent(ev) {
        SharedStepExposure(w, ev, e);
      } else if ev.Deliver? || ev.Confirm? || ev.Refuse? || ev.Confuse? {
        SendingStepExposure(w, ev, e);
      } else {
        ClaimingStepExposure(w, ev, e);
      }
    }
  }

  /**
   In every run, whatever crashes and whatever the clock does, a row is delivered at
   most once, plus once for each ambiguous event and once for each sweep that took
   the row from a live task.
   */
  lemma {:induction false} DeliveriesBounded(w: World, evs: seq<Event>)
    requires Init(w) && Legal(w, evs)
    ensures ExposureBounded(Run(w, evs))
    ensures forall e :: Run(w, evs).delivered[e] <= 1 + Run(w, evs).ambiguous[e] + Run(w, evs).premature[e]
  {
    if evs != [] {
      DeliveriesBounded(w, evs[..|evs| - 1]);
      StepExposure(Run(w, evs[..|evs| - 1]), evs[|evs| - 1]);
    } else {
      forall e ensures |Senders(w, e)| == 0 {
        assert forall t :: t !in Senders(w, e);
      }
    }
    forall e ensures Run(w, evs).delivered[e] <= 1 + Run(w, evs).ambiguous[e] + Run(w, evs).premature[e] {
      assert Exposure(Run(w, evs), e) >= Run(w, evs).delivered[e];
    }
  }

  // ---- ownership and finality when claims resolve in time ----

  /** Each live claim is exactly the claim its row records, and no sweep was premature. */
  ghost predicate ClaimsRecorded(w: World) {
    && (forall t :: t in w.tasks && Live(w.tasks[t].phase) ==>
          var p := w.tasks[t].phase;
          p.email in w.rows && w.rows[p.email].status == Sending && w.rows[p.email].sendingSince == Some(p.since))
    && (forall t, u | t in w.tasks && u in w.tasks && Live(w.tasks[t].phase) && Live(w.tasks[u].phase) ::
          w.tasks[t].phase.email == w.tasks[u].phase.email ==> t == u)
    && w.premature == multiset{}
  }

  /** While claims are timely, the sweep takes no row from a live task. */
  lemma SweepKeepsClaims(w: World)
    requires ClaimsRecorded(w) && Timely(w, 600_000_000)
    ensures ClaimsRecorded(Apply(w, Sweep))
  {
    forall e | e in StuckRows(w.rows, w.now) ensures Owners(w, e) == {} {
      assert forall t :: t !in Owners(w, e);
    }
    assert (set e | e in StuckRows(w.rows, w.now) && Owners(w, e) != {}) == {};
  }

  lemma ClaimKeepsClaims(w: World, t: int)
    requires Enabled(w, Claim(t)) && ClaimsRecorded(w)
    ensures ClaimsRecorded(Apply(w, Claim(t)))
  {
  }

  /** A task that goes on with its claim, or ends it and touches no other row, disturbs no other claim. */
  lemma MoveKeepsClaims(w: World, v: World, t: int)
    requires ClaimsRecorded(w) && t in w.tasks && t in v.tasks && v.tasks == w.tasks[t := v.tasks[t]]
    requires v.premature == w.premature
    requires var p, q := w.tasks[t].phase, v.tasks[t].phase;
             if Live(q) then Live(p) && q.email == p.email && q.since == p.since && v.rows == w.rows
             else forall e :: e in w.rows && !(Live(p) && e == p.email) ==> e in v.rows && v.rows[e] == w.rows[e]
    ensures ClaimsRecorded(v)
  {
  }

  lemma TaskKeepsClaims(w: World, ev: Event)
    requires Enabled(w, ev) && IsTaskEvent(ev) && !ev.Claim? && ClaimsRecorded(w)
    ensures ClaimsRecorded(Apply(w, ev))
  {
    MoveKeepsClaims(w, Apply(w, ev), ev.task);
  }

  lemma SharedKeepsClaims(w: World, ev: Event)
    requires Enabled(w, ev) && !IsTaskEvent(ev) && !ev.Sweep? && ClaimsRecorded(w)
    ensures ClaimsRecorded(Apply(w, ev))
  {
  }

  lemma StepClaimsRecorded(w: World, ev: Event)
    requires Enabled(w, ev) && ClaimsRecorded(w) && Timely(w, 600_000_000)
    ensures ClaimsRecorded(Apply(w, ev))
  {
    if ev.Sweep? {
      SweepKeepsClaims(w);
    } else if ev.Claim? {
      ClaimKeepsClaims(w, ev.task);
    } else if IsTaskEvent(ev) {
      TaskKeepsClaims(w, ev);
    } else {
      SharedKeepsClaims(w, ev);
    }
  }

  lemma TaskKeepsFinal(w: World, ev: Event, e: int)
    requires Enabled(w, ev) && ClaimsRecorded(w) && IsTaskEvent(ev)
    requires e in w.rows && w.rows[e].status in {Sent, Failed}
    ensures e in Apply(w, ev).rows && Apply(w, ev).rows[e] == w.rows[e]
  {
  }

  /** No step changes a SENT or FAILED row in any way, while claims are recorded. */
  lemma StepFinal(w: World, ev: Event, e: int)
    requires Enabled(w, ev) && ClaimsRecorded(w)
    requires e in w.rows && w.rows[e].status in {Sent, Failed}
    ensures e in Apply(w, ev).rows && Apply(w, ev).rows[e] == w.rows[e]
  {
    if IsTaskEvent(ev) {
      TaskKeepsFinal(w, ev, e);
    }
  }

  lemma {:induction false} LegalPrefix(w: World, evs: seq<Event>, k: nat)
    requires Legal(w, evs) && k <= |evs|
    ensures Legal(w, evs[..k])
    decreases |evs|
  {
    if k == |evs| {
      assert evs[..k] == evs;
    } else {
      var shorter := evs[..|evs| - 1];
      LegalPrefix(w, shorter, k);
      assert shorter[..k] == evs[..k];
    }
  }

  /**
   When no live claim ever gets older than the sweep's threshold, a SENDING row has
   at most one live owner, no sweep takes a row from a live task, and deliveries
   exceed one only by ambiguous events.
   */
  lemma {:induction false} TimelyRunIsSafe(w: World, evs: seq<Event>)
    requires Init(w) && Legal(w, evs) && AlwaysTimely(w, evs, 600_000_000)
    ensures ClaimsRecorded(Run(w, evs))
    ensures forall e :: |Owners(Run(w, evs), e)| <= 1
    ensures forall e :: Run(w, evs).delivered[e] <= 1 + Run(w, evs).ambiguous[e]
  {
    if evs != [] {
      TimelyRunIsSafe(w, evs[..|evs| - 1]);
      StepClaimsRecorded(Run(w, evs[..|evs| - 1]), evs[|evs| - 1]);
    }
    DeliveriesBounded(w, evs);
    var last := Run(w, evs);
    forall e ensures |Owners(last, e)| <= 1 {
      if t :| t in Owners(last, e) {
        forall u | u in Owners(last, e) ensures u == t {
          assert last.tasks[u].phase.email == last.tasks[t].phase.email;
        }
        assert Owners(last, e) == {t};
      } else {
        assert forall u :: u !in Owners(last, e);
      }
    }
  }

  /** In such a run a row that is SENT or FAILED after any k events keeps that whole row to the end. */
  lemma {:induction false} TimelyRunKeepsFinalRows(w: World, evs: seq<Event>, k: nat)
    requires Init(w) && Legal(w, evs) && AlwaysTimely(w, evs, 600_000_000) && k <= |evs|
    ensures Legal(w, evs[..k])
    ensures forall e :: e in Run(w, evs[..k]).rows && Run(w, evs[..k]).rows[e].status in {Sent, Failed} ==>
              e in Run(w, evs).rows && Run(w, evs).rows[e] == Run(w, evs[..k]).rows[e]
    decreases |evs|
  {
    LegalPrefix(w, evs, k);
    if k == |evs| {
      assert evs[..k] == evs;
    } else {
      var shorter := evs[..|evs| - 1];
      assert shorter[..k] == evs[..k];
      TimelyRunKeepsFinalRows(w, shorter, k);
      TimelyRunIsSafe(w, shorter);
      forall e | e in Run(w, evs[..k]).rows && Run(w, evs[..k]).rows[e].status in {Sent, Failed}
        ensures e in Run(w, evs).rows && Run(w, evs).rows[e] == Run(w, evs[..k]).rows[e]
      {
        StepFinal(Run(w, shorter), evs[|evs| - 1], e);
      }
    }
  }

  // ---- the exact age limit ----

  /** Every run whose live claims stay within `limit` delivers each row at most 1 + ambiguous times. */
  ghost predicate AtMostOnceUnder(limit: int) {
    forall w: World, evs: seq<Event> ::
      Init(w) && Legal(w, evs) && AlwaysTimely(w, evs, limit) ==>
        forall e :: Run(w, evs).delivered[e] <= 1 + Run(w, evs).ambiguous[e]
  }

  lemma {:induction false} TimelyWeaken(w: World, evs: seq<Event>, small: int, large: int)
    requires Legal(w, evs) && AlwaysTimely(w, evs, small) && small <= large
    ensures AlwaysTimely(w, evs, large)
  {
    if evs != [] {
      TimelyWeaken(w, evs[..|evs| - 1], small, large);
    }
  }

  /** Two tasks, one row, one credential. */
  function SlowStart(): World {
    World(
      map[0 := EmailRow(0, true, Queued, None, None, None)],
      map[0 := Credential(true, None, None)],
      map[],
      map[0 := Task(0, Idle), 1 := Task(0, Idle)],
      0, multiset{}, multiset{}, multiset{})
  }

  /** One legal, timely step more. */
  lemma Extend(w: World, evs: seq<Event>, ev: Event, limit: int)
    requires Legal(w, evs) && AlwaysTimely(w, evs, limit)
    requires Enabled(Run(w, evs), ev) && Timely(Apply(Run(w, evs), ev), limit)
    ensures Legal(w, evs + [ev]) && Run(w, evs + [ev]) == Apply(Run(w, evs), ev) && AlwaysTimely(w, evs + [ev], limit)
  {
    var all := evs + [ev];
    assert all[..|all| - 1] == evs;
  }

  const SLOW_LIMIT := 600_000_001

  function SlowWorld(row: EmailRow, first: Phase, second: Phase, now: int, delivered: multiset<int>, premature: multiset<int>): World {
    World(map[0 := row], SlowStart().creds, map[], map[0 := Task(0, first), 1 := Task(0, second)],
          now, delivered, multiset{}, premature)
  }

  function HeldSlowly(): EmailRow {
    SlowStart().rows[0].(status := Sending, sendingSince := Some(0))
  }

  /** Task 0 claims the row and chooses the credential. */
  lemma SlowFirstClaim()
    ensures Enabled(SlowStart(), Claim(0))
    ensures Apply(SlowStart(), Claim(0)) == SlowWorld(HeldSlowly(), Holding(0, 0), Idle, 0, multiset{}, multiset{})
    ensures Enabled(Apply(SlowStart(), Claim(0)), Pick(0, 0))
  {
    assert WithStatus(SlowStart().rows, 0, Queued) == {0};
    assert 0 in CampaignPool(Apply(SlowStart(), Claim(0)), 0);
  }

  /** Task 0 waits for its slot until the sweep puts the row back in the queue. */
  lemma SlowClaimIsSwept() returns (evs: seq<Event>)
    ensures Legal(SlowStart(), evs) && AlwaysTimely(SlowStart(), evs, SLOW_LIMIT)
    ensures Run(SlowStart(), evs)
            == SlowWorld(SlowStart().rows[0], Bound(0, 0, 0), Idle, SLOW_LIMIT, multiset{}, multiset{0})
  {
    var w := SlowStart();
    SlowFirstClaim();
    Extend(w, [], Claim(0), SLOW_LIMIT);
    var claimed := [] + [Claim(0)];
    Extend(w, claimed, Pick(0, 0), SLOW_LIMIT);
    var picked := claimed + [Pick(0, 0)];
    var waiting := SlowWorld(HeldSlowly(), Bound(0, 0, 0), Idle, 0, multiset{}, multiset{});
    assert Run(w, picked) == waiting;
    SlowWait(waiting, w, picked);
    evs := picked + [Tick(SLOW_LIMIT)] + [Sweep];
  }

  lemma SlowWait(waiting: World, w: World, picked: seq<Event>)
    requires waiting == SlowWorld(HeldSlowly(), Bound(0, 0, 0), Idle, 0, multiset{}, multiset{})
    requires Legal(w, picked) && Run(w, picked) == waiting && AlwaysTimely(w, picked, SLOW_LIMIT)
    ensures var evs := picked + [Tick(SLOW_LIMIT)] + [Sweep];
            Legal(w, evs) && AlwaysTimely(w, evs, SLOW_LIMIT)
            && Run(w, evs) == SlowWorld(SlowStart().rows[0], Bound(0, 0, 0), Idle, SLOW_LIMIT, multiset{}, multiset{0})
  {
    Extend(w, picked, Tick(SLOW_LIMIT), SLOW_LIMIT);
    var late := SlowWorld(HeldSlowly(), Bound(0, 0, 0), Idle, SLOW_LIMIT, multiset{}, multiset{});
    assert Run(w, picked + [Tick(SLOW_LIMIT)]) == late;
    SlowSweep(late, HeldSlowly());
    Extend(w, picked + [Tick(SLOW_LIMIT)], Sweep, SLOW_LIMIT);
  }

  lemma SlowSweep(w: World, held: EmailRow)
    requires held == SlowStart().rows[0].(status := Sending, sendingSince := Some(0))
    requires w == SlowWorld(held, Bound(0, 0, 0), Idle, SLOW_LIMIT, multiset{}, multiset{})
    ensures Apply(w, Sweep)
            == SlowWorld(SlowStart().rows[0], Bound(0, 0, 0), Idle, SLOW_LIMIT, multiset{}, multiset{0})
  {
    assert StuckRows(w.rows, w.now) == {0};
    assert 0 in Owners(w, 0);
    assert (set e | e in StuckRows(w.rows, w.now) && Owners(w, e) != {}) == {0};
    assert Recovered(w.rows, w.now) == SlowStart().rows;
  }

  function Reclaimed(): EmailRow {
    SlowStart().rows[0].(status := Sending, sendingSince := Some(SLOW_LIMIT))
  }

  /** Task 1 claims the requeued row while task 0 still holds it. */
  lemma SlowReclaim(w: World)
    requires w == SlowWorld(SlowStart().rows[0], Bound(0, 0, 0), Idle, SLOW_LIMIT, multiset{}, multiset{0})
    ensures Enabled(w, Claim(1))
    ensures Apply(w, Claim(1))
            == SlowWorld(Reclaimed(), Bound(0, 0, 0), Holding(0, SLOW_LIMIT), SLOW_LIMIT, multiset{}, multiset{0})
    ensures Enabled(Apply(w, Claim(1)), Pick(1, 0))
  {
    assert WithStatus(w.rows, 0, Queued) == {0};
    assert 0 in CampaignPool(Apply(w, Claim(1)), 1);
  }

  /** A claim one microsecond too old is enough: the row is delivered twice without any ambiguity. */
  lemma SlowClaimDeliversTwice() returns (evs: seq<Event>)
    ensures Init(SlowStart()) && Legal(SlowStart(), evs) && AlwaysTimely(SlowStart(), evs, SLOW_LIMIT)
    ensures Run(SlowStart(), evs).delivered[0] == 2 && Run(SlowStart(), evs).ambiguous[0] == 0
  {
    var w := SlowStart();
    var swept := SlowClaimIsSwept();
    SlowReclaim(Run(w, swept));
    Extend(w, swept, Claim(1), SLOW_LIMIT);
    var claimed := swept + [Claim(1)];
    Extend(w, claimed, Pick(1, 0), SLOW_LIMIT);
    var picked := claimed + [Pick(1, 0)];
    var both := SlowWorld(Reclaimed(), Bound(0, 0, 0), Bound(0, SLOW_LIMIT, 0), SLOW_LIMIT, multiset{}, multiset{0});
    assert Run(w, picked) == both;
    SlowDeliveries(both, w, picked);
    evs := picked + [Deliver(1)] + [Deliver(0)];
  }

  lemma SlowDeliveries(both: World, w: World, picked: seq<Event>)
    requires both == SlowWorld(Reclaimed(), Bound(0, 0, 0), Bound(0, SLOW_LIMIT, 0), SLOW_LIMIT, multiset{}, multiset{0})
    requires Legal(w, picked) && Run(w, picked) == both && AlwaysTimely(w, picked, SLOW_LIMIT)
    ensures var evs := picked + [Deliver(1)] + [Deliver(0)];
            Legal(w, evs) && AlwaysTimely(w, evs, SLOW_LIMIT)
            && Run(w, evs).delivered[0] == 2 && Run(w, evs).ambiguous[0] == 0
  {
    Extend(w, picked, Deliver(1), SLOW_LIMIT);
    Extend(w, picked + [Deliver(1)], Deliver(0), SLOW_LIMIT);
  }

  /** The bound is guaranteed exactly when the age limit does not exceed the sweep's 600 seconds. */
  lemma AtMostOnceExactly(limit: int)
    ensures AtMostOnceUnder(limit) <==> limit <= 600_000_000
  {
    if limit <= 600_000_000 {
      forall w: World, evs: seq<Event> | Init(w) && Legal(w, evs) && AlwaysTimely(w, evs, limit)
        ensures forall e :: Run(w, evs).delivered[e] <= 1 + Run(w, evs).ambiguous[e]
      {
        TimelyWeaken(w, evs, limit, 600_000_000);
        TimelyRunIsSafe(w, evs);
      }
    } else {
      var evs := SlowClaimDeliversTwice();
      TimelyWeaken(SlowStart(), evs, SLOW_LIMIT, limit);
      assert Run(SlowStart(), evs).delivered[0] > 1 + Run(SlowStart(), evs).ambiguous[0];
    }
  }

  // ---- the daily limit ----

  /** Sent today plus in flight: what a credential's limit has to account for. */
  function Load(w: World, c: int): nat {
    |SentToday(w.rows, c, w.now)| + |InFlight(w, c)|
  }

  ghost predicate LoadBounded(w: World, c: int, limit: nat) {
    c in w.creds && w.creds[c].dailyLimit == Some(limit) && Load(w, c) <= limit - 1 + |w.tasks|
  }

  lemma MoveInFlight(w: World, t: int, p: Phase, c: int)
    requires t in w.tasks
    ensures InFlight(Move(w, t, p), c) ==
            if (p.Bound? || p.Accepted?) && p.cred == c then InFlight(w, c) + {t} else InFlight(w, c) - {t}
  {
  }

  lemma SentTodayAfterMark(rows: Rows, e: int, cred: int, now: int, c: int)
    ensures SentToday(MarkedSent(rows, e, cred, now), c, now) <=
            if c == cred then SentToday(rows, c, now) + {e} else SentToday(rows, c, now)
  {
  }

  /** The rows any step counts against credential c, other than by marking a row sent. */
  lemma SentTodayShrinks(w: World, ev: Event, c: int)
    requires Enabled(w, ev) && !ev.Confirm?
    ensures SentToday(Apply(w, ev).rows, c, Apply(w, ev).now) <= SentToday(w.rows, c, w.now)
  {
    var w' := Apply(w, ev);
    if ev.Tick? {
      DayStartMonotone(w.now, w'.now);
    }
  }

  lemma DayStartMonotone(a: int, b: int)
    requires a <= b
    ensures DayStart(a) <= DayStart(b)
  {
  }

  lemma ConfirmLoad(w: World, t: int, c: int)
    requires Enabled(w, Confirm(t))
    ensures Load(Apply(w, Confirm(t)), c) <= Load(w, c)
  {
    var p := w.tasks[t].phase;
    var w' := Apply(w, Confirm(t));
    MoveInFlight(w, t, Idle, c);
    assert InFlight(w', c) == InFlight(Move(w, t, Idle), c);
    assert t in InFlight(w, c) <==> p.cred == c;
    SentTodayAfterMark(w.rows, p.email, p.cred, w.now, c);
    var before := SentToday(w.rows, c, w.now);
    SubsetSize(SentToday(w'.rows, c, w.now), if p.cred == c then before + {p.email} else before);
  }

  /** Only the choice of c itself adds to the load, and it needs the count below the limit. */
  lemma OtherStepLoad(w: World, ev: Event, c: int)
    requires Enabled(w, ev) && !ev.Confirm? && !(ev.Pick? && ev.cred == c)
    ensures Load(Apply(w, ev), c) <= Load(w, c)
  {
    var w' := Apply(w, ev);
    SentTodayShrinks(w, ev, c);
    SubsetSize(SentToday(w'.rows, c, w'.now), SentToday(w.rows, c, w.now));
    assert InFlight(w', c) <= InFlight(w, c);
    SubsetSize(InFlight(w', c), InFlight(w, c));
  }

  lemma StepTasks(w: World, ev: Event)
    requires Enabled(w, ev)
    ensures Apply(w, ev).tasks.Keys == w.tasks.Keys && |Apply(w, ev).tasks| == |w.tasks|
  {
    assert |Apply(w, ev).tasks.Keys| == |w.tasks.Keys|;
  }

  lemma StepLoad(w: World, ev: Event, c: int, limit: nat)
    requires Enabled(w, ev) && LoadBounded(w, c, limit) && limit > 0
    ensures LoadBounded(Apply(w, ev), c, limit)
  {
    var w' := Apply(w, ev);
    StepTasks(w, ev);
    if ev.Confirm? {
      ConfirmLoad(w, ev.task, c);
    } else if ev.Pick? && ev.cred == c {
      SubsetSize(InFlight(w', c), w'.tasks.Keys);
    } else {
      OtherStepLoad(w, ev, c);
    }
  }

  /**
   With N tasks and a positive limit L, a credential never has more than L + N - 1
   messages sent today, across midnight, crashes and retries; a single task never
   exceeds L.
   */
  lemma {:induction false} DailyLimitHolds(w: World, evs: seq<Event>, c: int, limit: nat)
    requires Legal(w, evs) && limit > 0 && LoadBounded(w, c, limit)
    ensures LoadBounded(Run(w, evs), c, limit)
    ensures |SentToday(Run(w, evs).rows, c, Run(w, evs).now)| <= limit + |w.tasks| - 1
    ensures |w.tasks| == 1 ==> |SentToday(Run(w, evs).rows, c, Run(w, evs).now)| <= limit
  {
    if evs != [] {
      var before := Run(w, evs[..|evs| - 1]);
      DailyLimitHolds(w, evs[..|evs| - 1], c, limit);
      StepLoad(before, evs[|evs| - 1], c, limit);
      TasksFixed(w, evs);
    }
  }

  lemma {:induction false} TasksFixed(w: World, evs: seq<Event>)
    requires Legal(w, evs)
    ensures Run(w, evs).tasks.Keys == w.tasks.Keys && |Run(w, evs).tasks| == |w.tasks|
  {
    if evs != [] {
      TasksFixed(w, evs[..|evs| - 1]);
      StepTasks(Run(w, evs[..|evs| - 1]), evs[|evs| - 1]);
    }
  }
}
