/** The life of a crawl job: start, heartbeats, the reaper, cancel, finish and resume. Times are seconds. */
module Jobs {
  import opened Prelude

  const PENDING := "pending"
  const RUNNING := "running"
  const INTERRUPTED := "interrupted"

  predicate Terminal(status: string) {
    status == "done" || status == "failed" || status == "cancelled"
  }

  datatype Metrics = Metrics(queued: int, visited: int, skipped: int, leads: int, domains: int, depth: int, workers: int)

  datatype Job = Job(
    status: string,
    startedAt: Option<int>,
    finishedAt: Option<int>,
    error: Option<string>,
    cancelRequested: bool,
    lastHeartbeat: Option<int>,
    metrics: Metrics)

  datatype Op =
    | Start
    | Finish(status: string, error: Option<string>)
    | Cancel
    | Beat(metrics: Metrics)
    | Reap(threshold: int)
    | Resume

  /** One call at a time now. */
  datatype Call = Call(now: int, op: Op)

  /** The last sign of life: the last heartbeat ever, else the start. */
  function Signal(job: Job): Option<int> {
    if job.lastHeartbeat.Some? then job.lastHeartbeat else job.startedAt
  }

  predicate Stale(job: Job, cutoff: int) {
    job.status == RUNNING && Signal(job).Some? && Signal(job).value < cutoff
  }

  function Finished(job: Job, status: string, error: Option<string>, now: int): Job {
    if Terminal(job.status) then job else job.(status := status, finishedAt := Some(now), error := error)
  }

  function Beaten(job: Job, metrics: Metrics, now: int): Job {
    job.(metrics := metrics, lastHeartbeat := Some(now), status := if job.status == INTERRUPTED then RUNNING else job.status)
  }

  function Reaped(job: Job, cutoff: int): Job {
    if Stale(job, cutoff) then job.(status := INTERRUPTED) else job
  }

  function Apply(job: Job, call: Call): Job {
    match call.op
    case Start => job.(status := RUNNING, startedAt := Some(call.now))
    case Finish(status, error) => Finished(job, status, error, call.now)
    case Cancel => job.(cancelRequested := true)
    case Beat(metrics) => Beaten(job, metrics, call.now)
    case Reap(threshold) => Reaped(job, call.now - threshold)
    case Resume => job.(status := RUNNING, cancelRequested := false)
  }

  function After(job: Job, run: seq<Call>): Job {
    if run == [] then job else Apply(After(job, run[..|run| - 1]), run[|run| - 1])
  }

  // ---- interruption ----

  /** The last heartbeat on record after the run, as the run tells it. */
  function LastBeat(job: Job, run: seq<Call>): Option<int> {
    if run == [] then job.lastHeartbeat
    else if run[|run| - 1].op.Beat? then Some(run[|run| - 1].now)
    else LastBeat(job, run[..|run| - 1])
  }

  function LastStart(job: Job, run: seq<Call>): Option<int> {
    if run == [] then job.startedAt
    else if run[|run| - 1].op.Start? then Some(run[|run| - 1].now)
    else LastStart(job, run[..|run| - 1])
  }

  /** A start is a sign of life only while there has been no heartbeat. */
  function LastSign(job: Job, run: seq<Call>): Option<int> {
    if LastBeat(job, run).Some? then LastBeat(job, run) else LastStart(job, run)
  }

  lemma {:induction false} SignalIsLastSign(job: Job, run: seq<Call>)
    ensures After(job, run).lastHeartbeat == LastBeat(job, run) && After(job, run).startedAt == LastStart(job, run)
    ensures Signal(After(job, run)) == LastSign(job, run)
  {
    if run != [] {
      SignalIsLastSign(job, run[..|run| - 1]);
    }
  }

  /**
   The call, made after these, would interrupt the job: a sweep that finds it running and its last sign of
   life too old, or a finish that asks for it.
   */
  predicate Interrupts(job: Job, before: seq<Call>, call: Call) {
    match call.op
    case Reap(threshold) =>
      && After(job, before).status == RUNNING
      && LastSign(job, before).Some? && call.now - LastSign(job, before).value > threshold
    case Finish(status, _) => !Terminal(After(job, before).status) && status == INTERRUPTED
    case _ => false
  }

  ghost predicate NeverInterrupted(job: Job, run: seq<Call>) {
    forall i :: 0 <= i <= |run| ==> After(job, run[..i]).status != INTERRUPTED
  }

  lemma AfterMore(job: Job, run: seq<Call>, i: nat)
    requires i < |run|
    ensures After(job, run[..i + 1]) == Apply(After(job, run[..i]), run[i])
  {
    assert run[..i + 1][..i] == run[..i];
  }

  lemma StepInterrupts(job: Job, run: seq<Call>, i: nat)
    requires i < |run| && After(job, run[..i]).status != INTERRUPTED
    ensures After(job, run[..i + 1]).status == INTERRUPTED <==> Interrupts(job, run[..i], run[i])
  {
    AfterMore(job, run, i);
    SignalIsLastSign(job, run[..i]);
  }

  lemma {:induction false} NotInterruptedYet(job: Job, run: seq<Call>, i: nat)
    requires i <= |run| && job.status != INTERRUPTED
    requires forall j :: 0 <= j < |run| ==> !Interrupts(job, run[..j], run[j])
    ensures After(job, run[..i]).status != INTERRUPTED
  {
    if i == 0 {
      assert run[..0] == [];
    } else {
      NotInterruptedYet(job, run, i - 1);
      StepInterrupts(job, run, i - 1);
    }
  }

  /**
   A job that is not interrupted stays so exactly when no sweep finds it running with its last sign of life
   older than the threshold and no finish asks for it, whatever else happens to it.
   */
  lemma NeverInterruptedIffInTime(job: Job, run: seq<Call>)
    requires job.status != INTERRUPTED
    ensures NeverInterrupted(job, run) <==> forall i :: 0 <= i < |run| ==> !Interrupts(job, run[..i], run[i])
  {
    if NeverInterrupted(job, run) {
      forall i | 0 <= i < |run| ensures !Interrupts(job, run[..i], run[i]) {
        assert After(job, run[..i]).status != INTERRUPTED && After(job, run[..i + 1]).status != INTERRUPTED;
        StepInterrupts(job, run, i);
      }
    }
    if forall i :: 0 <= i < |run| ==> !Interrupts(job, run[..i], run[i]) {
      forall i | 0 <= i <= |run| ensures After(job, run[..i]).status != INTERRUPTED {
        NotInterruptedYet(job, run, i);
      }
    }
  }

  /** The last heartbeat in the run, or since if there is none. */
  function BeatSince(since: int, run: seq<Call>): int {
    if run == [] then since
    else if run[|run| - 1].op.Beat? then run[|run| - 1].now
    else BeatSince(since, run[..|run| - 1])
  }

  /** Times never go back, and each heartbeat, and the end of the run, comes within 150 seconds of the one before. */
  ghost predicate Prompt(since: int, run: seq<Call>) {
    forall i :: 0 <= i < |run| ==> BeatSince(since, run[..i]) <= run[i].now <= BeatSince(since, run[..i]) + 150
  }

  /** Sweeps use the server's threshold, and no finish asks for an interrupted job. */
  predicate Ordinary(run: seq<Call>) {
    forall i :: 0 <= i < |run| ==>
      match run[i].op
      case Reap(threshold) => threshold == 150
      case Finish(status, _) => status != INTERRUPTED
      case _ => true
  }

  /** Starts that come before the first heartbeat only make the last sign of life later. */
  lemma {:induction false} SignSince(job: Job, since: int, run: seq<Call>, i: nat)
    requires i <= |run| && Signal(job) == Some(since) && Prompt(since, run)
    ensures LastSign(job, run[..i]).Some? && LastSign(job, run[..i]).value >= BeatSince(since, run[..i])
  {
    if i == 0 {
      assert run[..0] == [];
    } else {
      SignSince(job, since, run, i - 1);
      assert run[..i][..i - 1] == run[..i - 1] && run[..i][i - 1] == run[i - 1];
    }
  }

  lemma PromptIsNeverInterrupted(job: Job, since: int, run: seq<Call>)
    requires job.status != INTERRUPTED && Signal(job) == Some(since) && Prompt(since, run) && Ordinary(run)
    ensures NeverInterrupted(job, run)
  {
    forall i | 0 <= i < |run| ensures !Interrupts(job, run[..i], run[i]) {
      SignSince(job, since, run, i);
    }
    NeverInterruptedIffInTime(job, run);
  }

  /**
   From a heartbeat on, an agent whose next heartbeat always comes within 150 seconds is never interrupted,
   whatever the job's status was and whatever is started, cancelled, finished or resumed in between.
   */
  lemma PromptAgentIsNeverInterrupted(job: Job, beat: Call, run: seq<Call>)
    requires beat.op.Beat? && Prompt(beat.now, run) && Ordinary(run)
    ensures NeverInterrupted(Apply(job, beat), run)
  {
    PromptIsNeverInterrupted(Apply(job, beat), beat.now, run);
  }

  /** The same from a first start on. */
  lemma PromptStartIsNeverInterrupted(job: Job, now: int, run: seq<Call>)
    requires job.lastHeartbeat.None? && Prompt(now, run) && Ordinary(run)
    ensures NeverInterrupted(Apply(job, Call(now, Start)), run)
  {
    PromptIsNeverInterrupted(Apply(job, Call(now, Start)), now, run);
  }

  /** No sweep in the 150 seconds after now interrupts the job. */
  ghost predicate HasGrace(job: Job, now: int) {
    forall later :: now <= later <= now + 150 ==> Apply(job, Call(later, Reap(150))).status != INTERRUPTED
  }

  lemma GraceIffSignal(job: Job, now: int)
    requires job.status == RUNNING && Signal(job).Some?
    ensures HasGrace(job, now) <==> Signal(job).value >= now
  {
    if Signal(job).value < now {
      assert Apply(job, Call(now + 150, Reap(150))).status == INTERRUPTED;
    }
  }

  /** Starting gives the agent 150 seconds exactly when no older heartbeat is on record: start does not clear it. */
  lemma StartGraceIff(job: Job, now: int)
    ensures HasGrace(Apply(job, Call(now, Start)), now) <==> (job.lastHeartbeat.None? || job.lastHeartbeat.value >= now)
  {
    GraceIffSignal(Apply(job, Call(now, Start)), now);
  }

  /** Resuming gives no grace of its own: it needs a sign of life no older than the resume. */
  lemma ResumeGraceIff(job: Job, now: int)
    ensures HasGrace(Apply(job, Call(now, Resume)), now) <==> (Signal(job).None? || Signal(job).value >= now)
  {
    if Signal(job).Some? {
      GraceIffSignal(Apply(job, Call(now, Resume)), now);
    }
  }

  /** An interrupted job whose last heartbeat was at time 0. */
  function Silent(metrics: Metrics): Job {
    Job(INTERRUPTED, Some(0), None, None, false, Some(0), metrics)
  }

  /** Resumed at 1000: the sweep a second later interrupts it again, before its agent had any time to report. */
  lemma ResumedAndSweptAtOnce(metrics: Metrics)
    ensures var resume, sweep := Call(1000, Resume), Call(1001, Reap(150));
            && After(Silent(metrics), [resume]).status == RUNNING
            && After(Silent(metrics), [resume, sweep]).status == INTERRUPTED
  {
    var run := [Call(1000, Resume), Call(1001, Reap(150))];
    assert run[..1] == [run[0]] && run[..0] == [];
    AfterMore(Silent(metrics), run, 0);
    AfterMore(Silent(metrics), run, 1);
    assert run[..2] == run;
  }

  // ---- finishing and cancelling ----

  ghost predicate Without(run: seq<Call>, start: bool) {
    forall i :: 0 <= i < |run| ==> !run[i].op.Resume? && (start ==> !run[i].op.Start?)
  }

  ghost predicate StatusKept(job: Job, run: seq<Call>) {
    forall i :: 0 <= i <= |run| ==> After(job, run[..i]).status == job.status
  }

  /** In the runs without a resume or a new start, the status, the time and the error of a terminal finish stay. */
  lemma {:induction false} TerminalIsFinal(job: Job, run: seq<Call>)
    requires Terminal(job.status) && Without(run, true)
    ensures After(job, run).status == job.status
    ensures After(job, run).finishedAt == job.finishedAt && After(job, run).error == job.error
  {
    if run != [] {
      TerminalIsFinal(job, run[..|run| - 1]);
    }
  }

  /** Done, failed and cancelled stay what they are exactly in those runs. */
  lemma TerminalIsFinalIff(job: Job, run: seq<Call>)
    requires Terminal(job.status)
    ensures StatusKept(job, run) <==> Without(run, true)
  {
    if StatusKept(job, run) {
      forall i | 0 <= i < |run| ensures !run[i].op.Resume? && !run[i].op.Start? {
        AfterMore(job, run, i);
        assert After(job, run[..i]).status == job.status && After(job, run[..i + 1]).status == job.status;
      }
    }
    if Without(run, true) {
      forall i | 0 <= i <= |run| ensures After(job, run[..i]).status == job.status {
        TerminalIsFinal(job, run[..i]);
      }
    }
  }

  /** A start after a finish runs the job again; no route of the program sends this input. */
  lemma StartRevivesFinishedJob(job: Job, now: int)
    requires job.status == "done"
    ensures After(job, [Call(now, Start)]).status == RUNNING && !StatusKept(job, [Call(now, Start)])
  {
    var run := [Call(now, Start)];
    assert run[..0] == [] && run[..1] == run;
  }

  // ---- runs of the program: a job is started once, in the request that creates it ----

  ghost predicate Fresh(job: Job) {
    job.status == PENDING && job.lastHeartbeat.None? && job.startedAt.None? && !job.cancelRequested
  }

  /** Only the first call is a start. */
  ghost predicate StartedOnce(run: seq<Call>) {
    forall i :: 0 < i < |run| ==> !run[i].op.Start?
  }

  /** In every run of the program a terminal status stays until the next resume, exactly. */
  lemma TerminalUntilResume(job: Job, run: seq<Call>, k: nat)
    requires Fresh(job) && StartedOnce(run) && k <= |run| && Terminal(After(job, run[..k]).status)
    ensures StatusKept(After(job, run[..k]), run[k..]) <==> forall i :: k <= i < |run| ==> !run[i].op.Resume?
  {
    var rest := run[k..];
    assert run[..0] == [];
    TerminalIsFinalIff(After(job, run[..k]), rest);
    assert forall i :: 0 <= i < |rest| ==> rest[i] == run[k + i] && !rest[i].op.Start?;
    if Without(rest, true) {
      forall i | k <= i < |run| ensures !run[i].op.Resume? {
        assert rest[i - k] == run[i];
      }
    }
  }

  /** A start in a run of the program finds no older heartbeat, so it always gives its 150 seconds. */
  lemma ProgramStartHasGrace(job: Job, now: int)
    requires Fresh(job)
    ensures HasGrace(Apply(job, Call(now, Start)), now)
  {
    StartGraceIff(job, now);
  }

  /** The first finish with a terminal status wins over everything that follows. */
  lemma FirstFinishWins(job: Job, now: int, status: string, error: Option<string>, run: seq<Call>)
    requires !Terminal(job.status) && Terminal(status) && Without(run, true)
    ensures var last := After(Apply(job, Call(now, Finish(status, error))), run);
            last.status == status && last.error == error && last.finishedAt == Some(now)
  {
    TerminalIsFinal(Apply(job, Call(now, Finish(status, error))), run);
  }

  /** A finish wins over every later finish exactly when its status is terminal; the endpoint accepts any status. */
  lemma FinishWinsIffTerminal(job: Job, now: int, status: string, error: Option<string>)
    requires !Terminal(job.status)
    ensures (forall later, s, e ::
               var first := Apply(job, Call(now, Finish(status, error)));
               Apply(first, Call(later, Finish(s, e))) == first)
            <==> Terminal(status)
  {
    if !Terminal(status) {
      var first := Apply(job, Call(now, Finish(status, error)));
      assert Apply(first, Call(now, Finish("done", error))).status == "done";
      assert Apply(first, Call(now, Finish("done", error))) != first;
    }
  }

  /** Two finishes: the status of the first is not terminal, so the second overwrites it. */
  lemma SecondFinishWins(job: Job, error: Option<string>)
    requires !Terminal(job.status)
    ensures var run := [Call(1, Finish(INTERRUPTED, None)), Call(2, Finish("failed", error))];
            && After(job, run[..1]).status == INTERRUPTED && After(job, run[..1]).finishedAt == Some(1)
            && After(job, run).status == "failed" && After(job, run).finishedAt == Some(2) && After(job, run).error == error
  {
    var run := [Call(1, Finish(INTERRUPTED, None)), Call(2, Finish("failed", error))];
    assert run[..0] == [] && run[..2] == run;
    AfterMore(job, run, 0);
    AfterMore(job, run, 1);
  }

  /** A cancel request stays until resume, so every heartbeat until then reports it. */
  lemma {:induction false} CancelStaysUntilResume(job: Job, run: seq<Call>)
    requires job.cancelRequested && Without(run, false)
    ensures After(job, run).cancelRequested
  {
    if run != [] {
      CancelStaysUntilResume(job, run[..|run| - 1]);
    }
  }

  /** Whether the last cancel or resume was a cancel. */
  function CancelPending(job: Job, run: seq<Call>): bool {
    if run == [] then job.cancelRequested
    else if run[|run| - 1].op.Cancel? then true
    else if run[|run| - 1].op.Resume? then false
    else CancelPending(job, run[..|run| - 1])
  }

  /** In every run a cancel is requested exactly when one came after the last resume. */
  lemma {:induction false} CancelRequestedIff(job: Job, run: seq<Call>)
    ensures After(job, run).cancelRequested <==> CancelPending(job, run)
  {
    if run != [] {
      CancelRequestedIff(job, run[..|run| - 1]);
    }
  }

  // ---- the table ----

  class JobDb {
    var jobs: map<int, Job>

    constructor (jobs: map<int, Job>)
      ensures this.jobs == jobs
    {
      this.jobs := jobs;
    }

    method StartJob(id: int, now: int)
      modifies this
      ensures jobs == if id in old(jobs) then old(jobs)[id := Apply(old(jobs)[id], Call(now, Start))] else old(jobs)
      ensures id in old(jobs) ==> jobs[id] == old(jobs)[id].(status := "running", startedAt := Some(now))
    {
      if id in jobs {
        jobs := jobs[id := jobs[id].(status := RUNNING, startedAt := Some(now))];
      }
    }

    method FinishJob(id: int, status: string, error: Option<string>, now: int)
      modifies this
      ensures jobs == if id in old(jobs) then old(jobs)[id := Apply(old(jobs)[id], Call(now, Finish(status, error)))] else old(jobs)
      ensures id in old(jobs) ==>
                jobs[id] == if old(jobs)[id].status in {"done", "failed", "cancelled"} then old(jobs)[id]
                            else old(jobs)[id].(status := status, finishedAt := Some(now), error := error)
    {
      if id !in jobs || Terminal(jobs[id].status) {
        return;
      }
      jobs := jobs[id := jobs[id].(status := status, finishedAt := Some(now), error := error)];
    }

    method SetCancelRequested(id: int, now: int)
      modifies this
      ensures jobs == if id in old(jobs) then old(jobs)[id := Apply(old(jobs)[id], Call(now, Cancel))] else old(jobs)
      ensures id in old(jobs) ==> jobs[id] == old(jobs)[id].(cancelRequested := true)
    {
      if id in jobs {
        jobs := jobs[id := jobs[id].(cancelRequested := true)];
      }
    }

    /** Records the pulse, revives an interrupted job and reports a cancel request. */
    method Heartbeat(id: int, metrics: Metrics, now: int) returns (cancelRequested: bool)
      modifies this
      ensures jobs == if id in old(jobs) then old(jobs)[id := Apply(old(jobs)[id], Call(now, Beat(metrics)))] else old(jobs)
      ensures id in old(jobs) ==>
                && jobs[id].(status := old(jobs)[id].status) == old(jobs)[id].(metrics := metrics, lastHeartbeat := Some(now))
                && jobs[id].status == if old(jobs)[id].status == "interrupted" then "running" else old(jobs)[id].status
      ensures cancelRequested <==> id in old(jobs) && old(jobs)[id].cancelRequested
    {
      if id !in jobs {
        return false;
      }
      var job := jobs[id].(metrics := metrics, lastHeartbeat := Some(now));
      if job.status == INTERRUPTED {
        job := job.(status := RUNNING);
      }
      jobs := jobs[id := job];
      cancelRequested := job.cancelRequested;
    }

    /** Interrupts every running job silent for longer than the threshold, and reports which. */
    method ReapStaleJobs(threshold: int, now: int) returns (ids: set<int>)
      modifies this
      ensures jobs.Keys == old(jobs).Keys
      ensures forall id :: id in jobs ==> jobs[id] == Apply(old(jobs)[id], Call(now, Reap(threshold)))
      ensures forall id :: id in ids <==> id in old(jobs) && jobs[id] != old(jobs)[id]
      ensures forall id :: id in ids <==>
                && id in old(jobs) && old(jobs)[id].status == "running"
                && if old(jobs)[id].lastHeartbeat.Some? then now - old(jobs)[id].lastHeartbeat.value > threshold
                   else old(jobs)[id].startedAt.Some? && now - old(jobs)[id].startedAt.value > threshold
      ensures forall id :: id in ids ==> jobs[id] == old(jobs)[id].(status := "interrupted")
    {
      var cutoff := now - threshold;
      ids := set id | id in jobs && Stale(jobs[id], cutoff);
      jobs := map id | id in jobs :: if id in ids then jobs[id].(status := INTERRUPTED) else jobs[id];
    }

    method ResumeJob(id: int, now: int)
      modifies this
      ensures jobs == if id in old(jobs) then old(jobs)[id := Apply(old(jobs)[id], Call(now, Resume))] else old(jobs)
      ensures id in old(jobs) ==> jobs[id] == old(jobs)[id].(status := "running", cancelRequested := false)
    {
      if id in jobs {
        jobs := jobs[id := jobs[id].(status := RUNNING, cancelRequested := false)];
      }
    }
  }
}
