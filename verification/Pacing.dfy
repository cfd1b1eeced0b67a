/**
 Send pacing: the per-credential lock with its 30 to 90 second gap, and the dispatch
 protocol run against it in real time.

 The timed protocol is the dispatch protocol with a FIFO queue per credential. Time
 may not run past a sleeping lock holder's wake-up or past the end of a send, and a
 claimed row is handed to its credential's queue without delay, as the code does
 between two suspension points.
 */
module Pacing {
  import opened Prelude
  import opened Outreach
  import opened Dispatch

  const MIN_GAP := 30 * SECOND
  const MAX_GAP := 90 * SECOND

  predicate ValidGap(gap: int) {
    MIN_GAP <= gap <= MAX_GAP
  }

  /** When the holder of a credential's lock stops waiting, having taken the lock at `now`. */
  function Wake(last: Option<int>, now: int, gap: int): int {
    if last.Some? && now < last.value + gap then last.value + gap else now
  }

  /** Last grant times by credential, shared by every dispatch task of the process. */
  class CredentialPacer {
    var lastSent: map<int, int>

    constructor ()
      ensures lastSent == map[]
    {
      lastSent := map[];
    }

    /** The body of the lock, entered at time now; sleeping is the time until `granted`. */
    method WaitForCredentialSlot(cred: int, now: int, gap: int) returns (granted: int)
      requires 30_000_000 <= gap <= 90_000_000
      modifies this
      ensures now <= granted
      ensures cred in old(lastSent) ==> old(lastSent)[cred] + 30_000_000 <= granted
      ensures granted == if cred in old(lastSent) && now < old(lastSent)[cred] + gap then old(lastSent)[cred] + gap else now
      ensures granted == Wake(if cred in old(lastSent) then Some(old(lastSent)[cred]) else None, now, gap)
      ensures lastSent == old(lastSent)[cred := granted]
    {
      granted := now;
      if cred in lastSent {
        var remaining := gap - (now - lastSent[cred]);
        if remaining > 0 {
          granted := now + remaining;
        }
      }
      lastSent := lastSent[cred := granted];
    }
  }

  /** A credential's lock: FIFO queue whose head holds it, the head's wake-up, and all grants so far. */
  datatype Gate = Gate(queue: seq<int>, wake: int, grants: seq<int>)

  datatype Timed = Timed(w: World, gates: map<int, Gate>, due: map<int, int>)

  datatype TimedEvent =
    | Plain(ev: Event)                          // nothing to do with a credential's lock
    | Enter(task: int, cred: int, gap: int)     // pick a credential and queue for its lock
    | Grant(task: int, gap: int)                // the head wakes and sends; gap is drawn by the next holder
    | Outcome(ev: Event)                        // the send proceeds or ends
    | Die(task: int, gap: int)                  // crash; gap as in Grant if a lock changes hands
    | Elapse(elapsed: nat)

  function LastGrant(g: Gate): Option<int> {
    if g.grants == [] then None else Some(g.grants[|g.grants| - 1])
  }

  function GateOf(tw: Timed, c: int): Gate {
    if c in tw.gates then tw.gates[c] else Gate([], 0, [])
  }

  /** The gate after its queue becomes `queue`, its lock taken by a new head at `now`. */
  function Handover(g: Gate, queue: seq<int>, now: int, gap: int): Gate {
    Gate(queue, if queue == [] then g.wake else Wake(LastGrant(g), now, gap), g.grants)
  }

  predicate IsPlain(ev: Event) {
    !(ev.Pick? || ev.Deliver? || ev.Confirm? || ev.Refuse? || ev.Confuse? || ev.Crash? || ev.Tick?)
  }

  predicate IsOutcome(ev: Event) {
    ev.Deliver? || ev.Confirm? || ev.Refuse? || ev.Confuse?
  }

  ghost predicate TimedEnabled(tw: Timed, ev: TimedEvent) {
    match ev
    case Plain(e) => IsPlain(e) && Enabled(tw.w, e)
    case Enter(t, c, gap) => Enabled(tw.w, Pick(t, c)) && ValidGap(gap)
    case Grant(t, gap) =>
      && t in tw.w.tasks && tw.w.tasks[t].phase.Bound? && ValidGap(gap)
      && var g := GateOf(tw, tw.w.tasks[t].phase.cred);
      g.queue != [] && g.queue[0] == t && g.wake <= tw.w.now
    case Outcome(e) => IsOutcome(e) && e.task in tw.due && Enabled(tw.w, e)
    case Die(t, gap) => Enabled(tw.w, Crash(t)) && ValidGap(gap)
    case Elapse(d) =>
      && (forall c :: c in tw.gates && tw.gates[c].queue != [] ==> tw.w.now + d <= tw.gates[c].wake)
      && (forall t :: t in tw.due ==> tw.w.now + d <= tw.due[t])
      && (forall t :: t in tw.w.tasks ==> !tw.w.tasks[t].phase.Holding?)
  }

  /** Position of task t in a queue; the queue's length when it is not there. */
  function Position(queue: seq<int>, t: int): (k: nat)
    ensures k <= |queue|
    ensures k < |queue| ==> queue[k] == t
    ensures t in queue ==> k < |queue|
  {
    if queue == [] then 0 else if queue[0] == t then 0 else 1 + Position(queue[1..], t)
  }

  function Leaves(g: Gate, t: int, now: int, gap: int): Gate {
    var k := Position(g.queue, t);
    if k == |g.queue| then g
    else if k == 0 then Handover(g, g.queue[1..], now, gap)
    else g.(queue := g.queue[..k] + g.queue[k + 1..])
  }

  /** The dispatch event behind a timed event; a grant is invisible to the database. */
  function Base(ev: TimedEvent): Option<Event> {
    match ev
    case Plain(e) => Some(e)
    case Enter(t, c, _) => Some(Pick(t, c))
    case Grant(_, _) => None
    case Outcome(e) => Some(e)
    case Die(t, _) => Some(Crash(t))
    case Elapse(d) => Some(Tick(d))
  }

  ghost function TimedApply(tw: Timed, ev: TimedEvent, sendTime: nat): Timed
    requires TimedEnabled(tw, ev)
  {
    var now := tw.w.now;
    var w' := if Base(ev).Some? then Apply(tw.w, Base(ev).value) else tw.w;
    match ev
    case Plain(_) => tw.(w := w')
    case Elapse(_) => tw.(w := w')
    case Enter(t, c, gap) =>
      var g := GateOf(tw, c);
      var g' := if g.queue == [] then Handover(g, [t], now, gap) else g.(queue := g.queue + [t]);
      tw.(w := w', gates := tw.gates[c := g'])
    case Grant(t, gap) =>
      var c := tw.w.tasks[t].phase.cred;
      var g := GateOf(tw, c);
      tw.(gates := tw.gates[c := Handover(g.(grants := g.grants + [now]), g.queue[1..], now, gap)],
          due := tw.due[t := now + sendTime])
    case Outcome(e) =>
      tw.(w := w', due := if e.Deliver? then tw.due else tw.due - {e.task})
    case Die(t, gap) =>
      var p := tw.w.tasks[t].phase;
      tw.(w := w',
          gates := if p.Bound? then tw.gates[p.cred := Leaves(GateOf(tw, p.cred), t, now, gap)] else tw.gates,
          due := tw.due - {t})
  }

  // ---- what every timed step keeps ----

  /** The grants of a lock are at least 30 s apart and none lies in the future. */
  ghost predicate Spaced(grants: seq<int>, now: int) {
    && (forall i, j :: 0 <= i < j < |grants| ==> grants[i] + (j - i) * 30_000_000 <= grants[j])
    && (forall i :: 0 <= i < |grants| ==> grants[i] <= now)
  }

  /** The task in position k was claimed recently enough to afford the waits still before it. */
  ghost predicate Affords(tw: Timed, c: int, u: int, wake: int, k: int) {
    && u in tw.w.tasks && u !in tw.due && tw.w.tasks[u].phase.Bound? && tw.w.tasks[u].phase.cred == c
    && wake + MAX_GAP * k <= tw.w.tasks[u].phase.since + MAX_GAP * |tw.w.tasks|
  }

  /** Everybody in the queue can afford the wait, and the lock's timing is sound. */
  ghost predicate GateInv(tw: Timed, c: int, g: Gate) {
    && (forall i, j :: 0 <= i < j < |g.queue| ==> g.queue[i] != g.queue[j])
    && (forall k :: 0 <= k < |g.queue| ==> Affords(tw, c, g.queue[k], g.wake, k))
    && (g.queue != [] ==> tw.w.now <= g.wake <= tw.w.now + MAX_GAP && (LastGrant(g).Some? ==> LastGrant(g).value + MIN_GAP <= g.wake))
    && Spaced(g.grants, tw.w.now)
  }

  ghost predicate TaskInv(tw: Timed, t: int, sendTime: nat)
    requires t in tw.w.tasks
  {
    match tw.w.tasks[t].phase
    case Holding(_, since) => since == tw.w.now && t !in tw.due
    case Bound(_, since, c) => if t in tw.due then DueInv(tw, t, since, sendTime) else t in GateOf(tw, c).queue
    case Accepted(_, since, _) => t in tw.due && DueInv(tw, t, since, sendTime)
    case _ => t !in tw.due
  }

  predicate DueInv(tw: Timed, t: int, since: int, sendTime: nat)
    requires t in tw.due
  {
    tw.w.now <= tw.due[t] <= since + MAX_GAP * |tw.w.tasks| + sendTime
  }

  ghost predicate TimedInv(tw: Timed, sendTime: nat) {
    && (forall c :: c in tw.gates ==> GateInv(tw, c, tw.gates[c]))
    && (forall t :: t in tw.w.tasks ==> TaskInv(tw, t, sendTime))
    && tw.due.Keys <= tw.w.tasks.Keys
  }

  /** Sequences without repetitions fit into the set they draw from. */
  lemma {:induction false} DistinctFits(s: seq<int>, within: set<int>)
    requires forall i, j :: 0 <= i < j < |s| ==> s[i] != s[j]
    requires forall i :: 0 <= i < |s| ==> s[i] in within
    ensures |s| <= |within|
  {
    if s != [] {
      var last := s[|s| - 1];
      DistinctFits(s[..|s| - 1], within - {last});
    }
  }

  lemma PlainKeepsGate(tw: Timed, ev: TimedEvent, sendTime: nat, c: int)
    requires TimedEnabled(tw, ev) && TimedInv(tw, sendTime) && (ev.Plain? || ev.Elapse?) && c in tw.gates
    ensures GateInv(TimedApply(tw, ev, sendTime), c, tw.gates[c])
  {
    StepTasks(tw.w, Base(ev).value);
    assert GateInv(tw, c, tw.gates[c]);
  }

  lemma PlainKeepsTask(tw: Timed, ev: TimedEvent, sendTime: nat, t: int)
    requires TimedEnabled(tw, ev) && TimedInv(tw, sendTime) && (ev.Plain? || ev.Elapse?) && t in TimedApply(tw, ev, sendTime).w.tasks
    ensures TaskInv(TimedApply(tw, ev, sendTime), t, sendTime)
  {
    StepTasks(tw.w, Base(ev).value);
    assert TaskInv(tw, t, sendTime);
  }

  lemma PlainKeepsTimedInv(tw: Timed, ev: TimedEvent, sendTime: nat)
    requires TimedEnabled(tw, ev) && TimedInv(tw, sendTime) && (ev.Plain? || ev.Elapse?)
    ensures TimedInv(TimedApply(tw, ev, sendTime), sendTime)
  {
    var tw' := TimedApply(tw, ev, sendTime);
    StepTasks(tw.w, Base(ev).value);
    forall c | c in tw'.gates ensures GateInv(tw', c, tw'.gates[c]) {
      PlainKeepsGate(tw, ev, sendTime, c);
    }
    forall t | t in tw'.w.tasks ensures TaskInv(tw', t, sendTime) {
      PlainKeepsTask(tw, ev, sendTime, t);
    }
  }

  /** A gate that is not touched keeps its invariant when a task not in its queue moves on. */
  lemma OtherGate(tw: Timed, tw': Timed, c: int, t: int)
    requires c in tw.gates && GateInv(tw, c, tw.gates[c]) && t !in tw.gates[c].queue
    requires tw'.w.now == tw.w.now && t in tw.w.tasks && |tw'.w.tasks| == |tw.w.tasks|
    requires t in tw'.w.tasks && tw'.w.tasks == tw.w.tasks[t := tw'.w.tasks[t]]
    requires tw'.due.Keys <= tw.due.Keys + {t}
    ensures GateInv(tw', c, tw.gates[c])
  {
  }

  lemma EnteredGate(tw: Timed, tw': Timed, t: int, c: int, gap: int, g: Gate, g': Gate)
    requires t in tw.w.tasks && tw.w.tasks[t].phase.Holding? && tw.w.tasks[t].phase.since == tw.w.now && t !in tw.due
    requires GateInv(tw, c, g) && ValidGap(gap)
    requires tw'.w.now == tw.w.now && |tw'.w.tasks| == |tw.w.tasks| && tw'.due == tw.due
    requires t in tw'.w.tasks && tw'.w.tasks == tw.w.tasks[t := tw'.w.tasks[t]]
    requires tw'.w.tasks[t].phase == Bound(tw.w.tasks[t].phase.email, tw.w.now, c)
    requires g' == if g.queue == [] then Handover(g, [t], tw.w.now, gap) else g.(queue := g.queue + [t])
    ensures GateInv(tw', c, g')
  {
    forall k | 0 <= k < |g.queue| ensures g.queue[k] != t {}
    DistinctFits(g'.queue, tw'.w.tasks.Keys);
    var n := |g.queue|;
    assert n + 1 <= |tw.w.tasks|;
    assert g'.wake <= tw.w.now + MAX_GAP;
  }

  lemma EnterKeepsTimedInv(tw: Timed, ev: TimedEvent, sendTime: nat)
    requires TimedEnabled(tw, ev) && TimedInv(tw, sendTime) && ev.Enter?
    ensures TimedInv(TimedApply(tw, ev, sendTime), sendTime)
  {
    var tw' := TimedApply(tw, ev, sendTime);
    var t, c := ev.task, ev.cred;
    StepTasks(tw.w, Base(ev).value);
    assert TaskInv(tw, t, sendTime);
    var g, g' := GateOf(tw, c), tw'.gates[c];
    assert GateInv(tw, c, g);
    EnteredGate(tw, tw', t, c, ev.gap, g, g');
    forall c' | c' in tw'.gates && c' != c ensures GateInv(tw', c', tw'.gates[c']) {
      assert GateInv(tw, c', tw.gates[c']);
      OtherGate(tw, tw', c', t);
    }
    forall u | u in tw'.w.tasks ensures TaskInv(tw', u, sendTime) {
      assert TaskInv(tw, u, sendTime);
    }
  }

  lemma GrantIsSpaced(grants: seq<int>, now: int)
    requires Spaced(grants, now) && (grants != [] ==> grants[|grants| - 1] + MIN_GAP <= now)
    ensures Spaced(grants + [now], now)
  {
    var n := |grants|;
    forall i | 0 <= i < n ensures grants[i] + (n - i) * MIN_GAP <= now {
      assert i < n - 1 ==> grants[i] + (n - 1 - i) * MIN_GAP <= grants[n - 1];
    }
  }

  lemma GrantedGate(tw: Timed, tw': Timed, c: int, gap: int, g: Gate, g': Gate)
    requires GateInv(tw, c, g) && ValidGap(gap) && g.queue != [] && g.wake <= tw.w.now
    requires tw'.w == tw.w && tw'.due.Keys == tw.due.Keys + {g.queue[0]}
    requires g' == Handover(g.(grants := g.grants + [tw.w.now]), g.queue[1..], tw.w.now, gap)
    ensures GateInv(tw', c, g')
  {
    assert tw.w.now == g.wake;
    forall k | 0 <= k < |g'.queue| ensures Affords(tw', c, g'.queue[k], g'.wake, k) {
      assert g'.queue[k] == g.queue[k + 1] && Affords(tw, c, g.queue[k + 1], g.wake, k + 1);
    }
    GrantIsSpaced(g.grants, tw.w.now);
  }

  lemma GrantKeepsTimedInv(tw: Timed, ev: TimedEvent, sendTime: nat)
    requires TimedEnabled(tw, ev) && TimedInv(tw, sendTime) && ev.Grant?
    ensures TimedInv(TimedApply(tw, ev, sendTime), sendTime)
  {
    var tw' := TimedApply(tw, ev, sendTime);
    var t := ev.task;
    var c := tw.w.tasks[t].phase.cred;
    var g := GateOf(tw, c);
    assert GateInv(tw, c, g);
    assert g.queue[0] == t;
    GrantedGate(tw, tw', c, ev.gap, g, tw'.gates[c]);
    forall c' | c' in tw'.gates && c' != c ensures GateInv(tw', c', tw'.gates[c']) {
      assert GateInv(tw, c', tw.gates[c']);
      OtherGate(tw, tw', c', t);
    }
    forall u | u in tw'.w.tasks ensures TaskInv(tw', u, sendTime) {
      assert TaskInv(tw, u, sendTime);
      if u != t && tw.w.tasks[u].phase.Bound? && tw.w.tasks[u].phase.cred == c && u in g.queue {
        var k := Position(g.queue, u);
        assert tw'.gates[c].queue[k - 1] == u;
      }
    }
  }

  lemma OutcomeKeepsTimedInv(tw: Timed, ev: TimedEvent, sendTime: nat)
    requires TimedEnabled(tw, ev) && TimedInv(tw, sendTime) && ev.Outcome?
    ensures TimedInv(TimedApply(tw, ev, sendTime), sendTime)
  {
    var tw' := TimedApply(tw, ev, sendTime);
    var t := ev.ev.task;
    StepTasks(tw.w, ev.ev);
    assert TaskInv(tw, t, sendTime);
    forall c | c in tw'.gates ensures GateInv(tw', c, tw'.gates[c]) {
      assert GateInv(tw, c, tw.gates[c]);
      OtherGate(tw, tw', c, t);
    }
    forall u | u in tw'.w.tasks ensures TaskInv(tw', u, sendTime) {
      assert TaskInv(tw, u, sendTime);
    }
  }

  /** q is s without what is at k. */
  ghost predicate Closed(s: seq<int>, k: nat, q: seq<int>) {
    && |q| == (if k < |s| then |s| - 1 else |s|)
    && (forall i :: 0 <= i < |q| ==> q[i] == s[if i < k then i else i + 1])
  }

  lemma ClosedKeepsOthers(s: seq<int>, k: nat, q: seq<int>, u: int, i: nat)
    requires Closed(s, k, q) && i < |s| && i != k && s[i] == u
    ensures u in q
  {
    if k < i {
      assert q[i - 1] == s[i];
    } else {
      assert q[i] == s[i];
    }
  }

  lemma ClosedStaysDistinct(s: seq<int>, k: nat, q: seq<int>)
    requires Closed(s, k, q) && forall i, j :: 0 <= i < j < |s| ==> s[i] != s[j]
    ensures forall i, j :: 0 <= i < j < |q| ==> q[i] != q[j]
  {
    forall i, j | 0 <= i < j < |q| ensures q[i] != q[j] {
      assert q[i] == s[if i < k then i else i + 1] && q[j] == s[if j < k then j else j + 1];
    }
  }

  lemma LeavesCloses(g: Gate, t: int, now: int, gap: int)
    ensures Closed(g.queue, Position(g.queue, t), Leaves(g, t, now, gap).queue)
  {
  }

  /** Removing a task closes the gap it leaves. */
  lemma LeftQueue(g: Gate, t: int, now: int, gap: int)
    requires forall i, j :: 0 <= i < j < |g.queue| ==> g.queue[i] != g.queue[j]
    ensures var k, q := Position(g.queue, t), Leaves(g, t, now, gap).queue;
            && Closed(g.queue, k, q) && t !in q
            && (forall u :: u in g.queue && u != t ==> u in q)
            && (forall i, j :: 0 <= i < j < |q| ==> q[i] != q[j])
  {
    var k, q := Position(g.queue, t), Leaves(g, t, now, gap).queue;
    LeavesCloses(g, t, now, gap);
    ClosedStaysDistinct(g.queue, k, q);
    forall u | u in g.queue && u != t ensures u in q {
      ClosedKeepsOthers(g.queue, k, q, u, Position(g.queue, u));
    }
    forall i | 0 <= i < |q| ensures q[i] != t {}
  }

  /** A crash can hit a task in a queue at any time: the others close up in their order, nobody is granted a slot, and the row stays. */
  lemma WaiterDies(tw: Timed, t: int, gap: int, sendTime: nat)
    requires t in tw.w.tasks && tw.w.tasks[t].phase.Bound? && ValidGap(gap)
    ensures TimedEnabled(tw, Die(t, gap))
    ensures var c, v := tw.w.tasks[t].phase.cred, TimedApply(tw, Die(t, gap), sendTime);
            && v.w.tasks[t].phase.Gone? && v.w.rows == tw.w.rows && c in v.gates && v.gates[c].grants == GateOf(tw, c).grants
            && Closed(GateOf(tw, c).queue, Position(GateOf(tw, c).queue, t), v.gates[c].queue)
  {
    LeavesCloses(GateOf(tw, tw.w.tasks[t].phase.cred), t, tw.w.now, gap);
  }

  lemma StillAffords(tw: Timed, tw': Timed, c: int, t: int, u: int, wake: int, k: int, wake': int, k': int)
    requires Affords(tw, c, u, wake, k) && u != t && wake' + MAX_GAP * k' <= wake + MAX_GAP * k
    requires t in tw'.w.tasks && tw'.w.tasks == tw.w.tasks[t := tw'.w.tasks[t]]
    requires |tw'.w.tasks| == |tw.w.tasks| && tw'.due == tw.due - {t}
    ensures Affords(tw', c, u, wake', k')
  {
  }

  /** The gate g' that a task left at position k of gate g. */
  lemma GateLeft(tw: Timed, tw': Timed, t: int, c: int, g: Gate, g': Gate, k: nat)
    requires GateInv(tw, c, g) && Closed(g.queue, k, g'.queue) && t !in g'.queue && g'.grants == g.grants
    requires forall i, j :: 0 <= i < j < |g'.queue| ==> g'.queue[i] != g'.queue[j]
    requires g'.queue != [] ==>
               && tw.w.now <= g'.wake <= tw.w.now + MAX_GAP && (LastGrant(g').Some? ==> LastGrant(g').value + MIN_GAP <= g'.wake)
               && g'.wake <= if k == 0 then g.wake + MAX_GAP else g.wake
    requires t in tw.w.tasks && t in tw'.w.tasks && tw'.w.tasks == tw.w.tasks[t := tw'.w.tasks[t]]
    requires tw'.w.now == tw.w.now && |tw'.w.tasks| == |tw.w.tasks| && tw'.due == tw.due - {t}
    ensures GateInv(tw', c, g')
  {
    forall i | 0 <= i < |g'.queue| ensures Affords(tw', c, g'.queue[i], g'.wake, i) {
      var before := if i < k then i else i + 1;
      assert Affords(tw, c, g.queue[before], g.wake, before);
      StillAffords(tw, tw', c, t, g'.queue[i], g.wake, before, g'.wake, i);
    }
  }

  lemma LeftGate(tw: Timed, tw': Timed, t: int, c: int, gap: int, g: Gate)
    requires GateInv(tw, c, g) && ValidGap(gap)
    requires t in tw.w.tasks && t in tw'.w.tasks && tw'.w.tasks == tw.w.tasks[t := tw'.w.tasks[t]]
    requires tw'.w.now == tw.w.now && |tw'.w.tasks| == |tw.w.tasks| && tw'.due == tw.due - {t}
    ensures GateInv(tw', c, Leaves(g, t, tw.w.now, gap))
  {
    LeftQueue(g, t, tw.w.now, gap);
    LeftGateWake(tw, c, t, gap, g);
    GateLeft(tw, tw', t, c, g, Leaves(g, t, tw.w.now, gap), Position(g.queue, t));
  }

  lemma LeftGateWake(tw: Timed, c: int, t: int, gap: int, g: Gate)
    requires GateInv(tw, c, g) && ValidGap(gap)
    ensures var g' := Leaves(g, t, tw.w.now, gap);
            && (g'.queue != [] ==> tw.w.now <= g'.wake <= tw.w.now + MAX_GAP
                                   && (LastGrant(g').Some? ==> LastGrant(g').value + MIN_GAP <= g'.wake))
            && g'.grants == g.grants
            && (g'.queue != [] ==> g'.wake <= if Position(g.queue, t) == 0 then g.wake + MAX_GAP else g.wake)
  {
  }

  lemma DieKeepsTimedInv(tw: Timed, ev: TimedEvent, sendTime: nat)
    requires TimedEnabled(tw, ev) && TimedInv(tw, sendTime) && ev.Die?
    ensures TimedInv(TimedApply(tw, ev, sendTime), sendTime)
  {
    var tw' := TimedApply(tw, ev, sendTime);
    var t := ev.task;
    StepTasks(tw.w, Crash(t));
    assert TaskInv(tw, t, sendTime);
    var p := tw.w.tasks[t].phase;
    forall c | c in tw'.gates ensures GateInv(tw', c, tw'.gates[c]) {
      if p.Bound? && p.cred == c {
        assert GateInv(tw, c, GateOf(tw, c));
        LeftGate(tw, tw', t, c, ev.gap, GateOf(tw, c));
      } else {
        assert GateInv(tw, c, tw.gates[c]);
        OtherGate(tw, tw', c, t);
      }
    }
    forall u | u in tw'.w.tasks ensures TaskInv(tw', u, sendTime) {
      assert TaskInv(tw, u, sendTime);
      if p.Bound? && u != t && tw.w.tasks[u].phase.Bound? && tw.w.tasks[u].phase.cred == p.cred {
        assert GateInv(tw, p.cred, GateOf(tw, p.cred));
        LeftQueue(GateOf(tw, p.cred), t, tw.w.now, ev.gap);
      }
    }
  }

  lemma StepTimedInv(tw: Timed, ev: TimedEvent, sendTime: nat)
    requires TimedEnabled(tw, ev) && TimedInv(tw, sendTime)
    ensures TimedInv(TimedApply(tw, ev, sendTime), sendTime)
  {
    match ev
    case Plain(_) => PlainKeepsTimedInv(tw, ev, sendTime);
    case Elapse(_) => PlainKeepsTimedInv(tw, ev, sendTime);
    case Enter(_, _, _) => EnterKeepsTimedInv(tw, ev, sendTime);
    case Grant(_, _) => GrantKeepsTimedInv(tw, ev, sendTime);
    case Outcome(_) => OutcomeKeepsTimedInv(tw, ev, sendTime);
    case Die(_, _) => DieKeepsTimedInv(tw, ev, sendTime);
  }

  // ---- runs in real time ----

  ghost predicate TimedLegal(tw: Timed, evs: seq<TimedEvent>, sendTime: nat)
    decreases |evs|, 0
  {
    evs == [] || (TimedLegal(tw, evs[..|evs| - 1], sendTime)
                  && TimedEnabled(TimedRun(tw, evs[..|evs| - 1], sendTime), evs[|evs| - 1]))
  }

  ghost function TimedRun(tw: Timed, evs: seq<TimedEvent>, sendTime: nat): Timed
    requires TimedLegal(tw, evs, sendTime)
    decreases |evs|, 1
  {
    if evs == [] then tw else TimedApply(TimedRun(tw, evs[..|evs| - 1], sendTime), evs[|evs| - 1], sendTime)
  }

  /** The run starts with no live claim, idle locks and no grant yet. */
  ghost predicate TimedInit(tw: Timed) {
    Init(tw.w) && tw.gates == map[] && tw.due == map[]
  }

  /** The longest a claim can live: everybody's gap first, then the send itself. */
  function ClaimLimit(tasks: nat, sendTime: nat): nat {
    90_000_000 * tasks + sendTime
  }

  lemma TimedInvIsTimely(tw: Timed, sendTime: nat)
    requires TimedInv(tw, sendTime)
    ensures Timely(tw.w, ClaimLimit(|tw.w.tasks|, sendTime))
  {
    forall t | t in tw.w.tasks && Live(tw.w.tasks[t].phase)
      ensures tw.w.now - tw.w.tasks[t].phase.since <= ClaimLimit(|tw.w.tasks|, sendTime)
    {
      assert TaskInv(tw, t, sendTime);
      var p := tw.w.tasks[t].phase;
      if p.Bound? && t !in tw.due {
        var g := GateOf(tw, p.cred);
        assert GateInv(tw, p.cred, g);
        assert g.queue[Position(g.queue, t)] == t;
      }
    }
  }

  /** In every timed run of N tasks a claim is resolved within 90 N seconds plus the time of one send. */
  lemma {:induction false} ClaimsResolveInTime(tw: Timed, evs: seq<TimedEvent>, sendTime: nat)
    requires TimedInit(tw) && TimedLegal(tw, evs, sendTime)
    ensures TimedInv(TimedRun(tw, evs, sendTime), sendTime)
    ensures |TimedRun(tw, evs, sendTime).w.tasks| == |tw.w.tasks|
    ensures Timely(TimedRun(tw, evs, sendTime).w, ClaimLimit(|tw.w.tasks|, sendTime))
  {
    if evs != [] {
      var before := TimedRun(tw, evs[..|evs| - 1], sendTime);
      var ev := evs[|evs| - 1];
      ClaimsResolveInTime(tw, evs[..|evs| - 1], sendTime);
      StepTimedInv(before, ev, sendTime);
      if Base(ev).Some? {
        StepTasks(before.w, Base(ev).value);
      }
    }
    TimedInvIsTimely(TimedRun(tw, evs, sendTime), sendTime);
  }

  lemma PacedStep(tw: Timed, ev: TimedEvent, sendTime: nat)
    requires TimedEnabled(tw, ev) && ClaimsRecorded(tw.w) && ExposureBounded(tw.w) && Timely(tw.w, 600_000_000)
    ensures ClaimsRecorded(TimedApply(tw, ev, sendTime).w) && ExposureBounded(TimedApply(tw, ev, sendTime).w)
  {
    if Base(ev).Some? {
      StepClaimsRecorded(tw.w, Base(ev).value);
      StepExposure(tw.w, Base(ev).value);
    }
  }

  lemma ExposedDeliveries(w: World, e: int)
    requires ClaimsRecorded(w) && ExposureBounded(w)
    ensures w.delivered[e] <= 1 + w.ambiguous[e]
  {
    assert Exposure(w, e) >= w.delivered[e];
  }

  /**
   With at most (600 - sendTime) / 90 tasks the sweep never takes a row from a live
   task: each SENDING row has one live owner at most and every row is delivered at
   most once plus its ambiguous events.
   */
  lemma {:induction false} PacedDispatchIsSafe(tw: Timed, evs: seq<TimedEvent>, sendTime: nat)
    requires TimedInit(tw) && TimedLegal(tw, evs, sendTime)
    requires ClaimLimit(|tw.w.tasks|, sendTime) <= 600_000_000
    ensures ClaimsRecorded(TimedRun(tw, evs, sendTime).w)
    ensures ExposureBounded(TimedRun(tw, evs, sendTime).w)
    ensures forall e :: TimedRun(tw, evs, sendTime).w.delivered[e] <= 1 + TimedRun(tw, evs, sendTime).w.ambiguous[e]
  {
    if evs == [] {
      DeliveriesBounded(tw.w, []);
    } else {
      var before := TimedRun(tw, evs[..|evs| - 1], sendTime);
      var ev := evs[|evs| - 1];
      PacedDispatchIsSafe(tw, evs[..|evs| - 1], sendTime);
      ClaimsResolveInTime(tw, evs[..|evs| - 1], sendTime);
      PacedStep(before, ev, sendTime);
    }
    forall e ensures TimedRun(tw, evs, sendTime).w.delivered[e] <= 1 + TimedRun(tw, evs, sendTime).w.ambiguous[e] {
      ExposedDeliveries(TimedRun(tw, evs, sendTime).w, e);
    }
  }

  // ---- rate ----

  /** How many of the given times lie in the closed window from..to. */
  function InWindow(times: seq<int>, from: int, to: int): nat {
    if times == [] then 0
    else InWindow(times[..|times| - 1], from, to) + if from <= times[|times| - 1] <= to then 1 else 0
  }

  lemma {:induction false} WindowCut(times: seq<int>, from: int, to: int, to': int)
    requires to' <= to && forall i :: 0 <= i < |times| ==> times[i] <= to'
    ensures InWindow(times, from, to) == InWindow(times, from, to')
  {
    if times != [] {
      WindowCut(times[..|times| - 1], from, to, to');
    }
  }

  /** Times at least 30 s apart put at most floor(W / 30 s) + 1 of themselves into a window of length W. */
  lemma {:induction false} SpacedWindow(times: seq<int>, now: int, from: int, to: int)
    requires Spaced(times, now)
    ensures InWindow(times, from, to) <= if to < from then 0 else (to - from) / 30_000_000 + 1
  {
    if times != [] {
      var init := times[..|times| - 1];
      var last := times[|times| - 1];
      if from <= last <= to {
        assert forall i :: 0 <= i < |init| ==> init[i] <= last - MIN_GAP;
        WindowCut(init, from, to, last - MIN_GAP);
        SpacedWindow(init, now, from, last - MIN_GAP);
      } else {
        SpacedWindow(init, now, from, to);
      }
    }
  }

  lemma GateRateBounded(tw: Timed, sendTime: nat, c: int, from: int, window: nat)
    requires TimedInv(tw, sendTime)
    ensures InWindow(GateOf(tw, c).grants, from, from + window) <= window / 30_000_000 + 1
  {
    assert c in tw.gates ==> GateInv(tw, c, tw.gates[c]);
    SpacedWindow(GateOf(tw, c).grants, tw.w.now, from, from + window);
    assert from + window - from == window;
  }

  /** In every timed run any window of W microseconds sees at most floor(W / 30 s) + 1 grants per credential. */
  lemma GrantRateBounded(tw: Timed, evs: seq<TimedEvent>, sendTime: nat, c: int, from: int, window: nat)
    requires TimedInit(tw) && TimedLegal(tw, evs, sendTime)
    ensures InWindow(GateOf(TimedRun(tw, evs, sendTime), c).grants, from, from + window) <= window / 30_000_000 + 1
  {
    ClaimsResolveInTime(tw, evs, sendTime);
    GateRateBounded(TimedRun(tw, evs, sendTime), sendTime, c, from, window);
  }
}
