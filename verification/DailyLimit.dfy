/**
 The daily limit is checked before a credential is chosen and the count moves only when a row is
 marked sent, so N tasks can pass the check together: the bound of limit + N - 1 is reached.
 */
module DailyLimit {
  import opened Prelude
  import opened Outreach
  import opened Dispatch

  /** The row e when the first `claimed` tasks have claimed, and the first `sent` of these have finished. */
  function RowAt(limit: nat, claimed: nat, sent: nat, e: int): EmailRow {
    if e < limit - 1 then EmailRow(0, true, Sent, None, Some(0), Some(0))
    else if e < limit - 1 + sent then EmailRow(0, true, Sent, Some(0), Some(0), Some(0))
    else if e < limit - 1 + claimed then EmailRow(0, true, Sending, Some(0), None, None)
    else EmailRow(0, true, Queued, None, None, None)
  }

  function PhaseAt(limit: nat, claimed: nat, sent: nat, t: int): Phase {
    if sent <= t < claimed then Bound(limit - 1 + t, 0, 0) else Idle
  }

  /** The integers from 0 below n. */
  function Range(n: nat): (r: set<int>)
    ensures forall i :: i in r <==> 0 <= i < n
    ensures |r| == n
  {
    if n == 0 then {} else Range(n - 1) + {n - 1}
  }

  /** One credential with a daily limit, limit - 1 rows sent through it today, and one queued row per task. */
  ghost predicate Stage(w: World, tasks: nat, limit: nat, claimed: nat, sent: nat) {
    && limit > 0
    && w.now == 0 && w.assignment == map[] && w.creds == map[0 := Credential(true, None, Some(limit))]
    && (forall e :: e in w.rows <==> 0 <= e < limit - 1 + tasks) && (forall t :: t in w.tasks <==> 0 <= t < tasks)
    && (forall e :: e in w.rows ==> w.rows[e] == RowAt(limit, claimed, sent, e))
    && (forall t :: t in w.tasks ==> w.tasks[t] == Task(0, PhaseAt(limit, claimed, sent, t)))
  }

  function StartWorld(tasks: nat, limit: nat): World
    requires limit > 0
  {
    World(map e | e in Range(limit - 1 + tasks) :: RowAt(limit, 0, 0, e),
          map[0 := Credential(true, None, Some(limit))], map[],
          map t | t in Range(tasks) :: Task(0, Idle), 0, multiset{}, multiset{}, multiset{})
  }

  lemma SentSoFar(w: World, tasks: nat, limit: nat, claimed: nat, sent: nat)
    requires Stage(w, tasks, limit, claimed, sent) && limit > 0 && sent <= claimed <= tasks
    ensures |SentToday(w.rows, 0, 0)| == limit - 1 + sent
  {
    assert SentToday(w.rows, 0, 0) == Range(limit - 1 + sent) by {
      forall e ensures e in SentToday(w.rows, 0, 0) <==> e in Range(limit - 1 + sent) {
        assert e in w.rows <==> 0 <= e < limit - 1 + tasks;
      }
    }
  }

  /** The next task claims its row and passes the check of the limit, since nobody has finished yet. */
  lemma ClaimNext(w: World, tasks: nat, limit: nat, claimed: nat)
    requires Stage(w, tasks, limit, claimed, 0) && limit > 0 && claimed < tasks
    ensures Enabled(w, Claim(claimed)) && Enabled(Apply(w, Claim(claimed)), Pick(claimed, 0))
    ensures Stage(Apply(Apply(w, Claim(claimed)), Pick(claimed, 0)), tasks, limit, claimed + 1, 0)
  {
    var e, queued := limit - 1 + claimed, WithStatus(w.rows, 0, Queued);
    assert e in w.rows && claimed in w.tasks && e in queued;
    assert Least(queued) == e;
    var v := Apply(w, Claim(claimed));
    SentSoFar(w, tasks, limit, claimed, 0);
    assert SentToday(v.rows, 0, 0) == SentToday(w.rows, 0, 0);
    assert 0 in CampaignPool(v, claimed);
  }

  /** A task past the check sends its row whatever the count has become. */
  lemma SendNext(w: World, tasks: nat, limit: nat, sent: nat)
    requires Stage(w, tasks, limit, tasks, sent) && limit > 0 && sent < tasks
    ensures Enabled(w, Deliver(sent)) && Enabled(Apply(w, Deliver(sent)), Confirm(sent))
    ensures Stage(Apply(Apply(w, Deliver(sent)), Confirm(sent)), tasks, limit, tasks, sent + 1)
  {
    assert sent in w.tasks && limit - 1 + sent in w.rows;
  }

  lemma StartStage(tasks: nat, limit: nat)
    requires limit > 0
    ensures Stage(StartWorld(tasks, limit), tasks, limit, 0, 0)
  {
  }

  lemma ClaimOneMore(w: World, tasks: nat, limit: nat, claimed: nat, next: nat, before: seq<Event>) returns (evs: seq<Event>)
    requires limit > 0 && claimed < tasks && next == claimed + 1
    requires Legal(w, before) && Stage(Run(w, before), tasks, limit, claimed, 0)
    ensures Legal(w, evs) && Stage(Run(w, evs), tasks, limit, next, 0)
  {
    ClaimNext(Run(w, before), tasks, limit, claimed);
    TwoMore(w, before, Claim(claimed), Pick(claimed, 0));
    evs := before + [Claim(claimed), Pick(claimed, 0)];
  }

  lemma SendOneMore(w: World, tasks: nat, limit: nat, sent: nat, next: nat, before: seq<Event>) returns (evs: seq<Event>)
    requires limit > 0 && sent < tasks && next == sent + 1
    requires Legal(w, before) && Stage(Run(w, before), tasks, limit, tasks, sent)
    ensures Legal(w, evs) && Stage(Run(w, evs), tasks, limit, tasks, next)
  {
    SendNext(Run(w, before), tasks, limit, sent);
    TwoMore(w, before, Deliver(sent), Confirm(sent));
    evs := before + [Deliver(sent), Confirm(sent)];
  }

  lemma TwoMore(w: World, evs: seq<Event>, x: Event, y: Event)
    requires Legal(w, evs) && Enabled(Run(w, evs), x) && Enabled(Apply(Run(w, evs), x), y)
    ensures Legal(w, evs + [x, y]) && Run(w, evs + [x, y]) == Apply(Apply(Run(w, evs), x), y)
  {
    OneMore(w, evs, x);
    OneMore(w, evs + [x], y);
    assert evs + [x] + [y] == evs + [x, y];
  }

  lemma OneMore(w: World, evs: seq<Event>, x: Event)
    requires Legal(w, evs) && Enabled(Run(w, evs), x)
    ensures Legal(w, evs + [x]) && Run(w, evs + [x]) == Apply(Run(w, evs), x)
  {
    var one := evs + [x];
    assert one[..|one| - 1] == evs;
  }

  lemma {:induction false} AllClaim(w: World, tasks: nat, limit: nat, claimed: nat) returns (evs: seq<Event>)
    requires limit > 0 && claimed <= tasks && Stage(w, tasks, limit, 0, 0)
    ensures Legal(w, evs) && Stage(Run(w, evs), tasks, limit, claimed, 0)
  {
    if claimed == 0 {
      evs := [];
    } else {
      var before := AllClaim(w, tasks, limit, claimed - 1);
      evs := ClaimOneMore(w, tasks, limit, claimed - 1, claimed, before);
    }
  }

  lemma {:induction false} AllSend(w: World, tasks: nat, limit: nat, sent: nat) returns (evs: seq<Event>)
    requires limit > 0 && sent <= tasks && Stage(w, tasks, limit, 0, 0)
    ensures Legal(w, evs) && Stage(Run(w, evs), tasks, limit, tasks, sent)
  {
    if sent == 0 {
      evs := AllClaim(w, tasks, limit, tasks);
    } else {
      var before := AllSend(w, tasks, limit, sent - 1);
      evs := SendOneMore(w, tasks, limit, sent - 1, sent, before);
    }
  }

  /** For any number of tasks and any positive limit some run sends limit + N - 1 messages in a day. */
  lemma LimitIsReached(tasks: nat, limit: nat) returns (evs: seq<Event>)
    requires limit > 0 && tasks > 0
    ensures var w := StartWorld(tasks, limit);
            && |SentToday(w.rows, 0, w.now)| == limit - 1 && LoadBounded(w, 0, limit)
            && Legal(w, evs) && |w.tasks| == tasks
            && |SentToday(Run(w, evs).rows, 0, Run(w, evs).now)| == limit + tasks - 1
  {
    var w := StartWorld(tasks, limit);
    StartStage(tasks, limit);
    SentSoFar(w, tasks, limit, 0, 0);
    assert w.tasks.Keys == Range(tasks);
    assert InFlight(w, 0) == {};
    evs := AllSend(w, tasks, limit, tasks);
    SentSoFar(Run(w, evs), tasks, limit, tasks, tasks);
  }
}
