/**
 One campaign's dispatch loop, run alone: nobody else writes the tables and no
 cooldown runs out while it runs. Server answers and clock readings are given per
 pass; the run may take any time and cross midnight.
 */
module DispatchLoop {
  import opened Prelude
  import opened Outreach

  /** The answer to one send; `taken` says whether the server had accepted the message before the error. */
  datatype SendResult = Delivered | Failure(error: SendError, taken: bool)

  datatype Exit = Completed | PausedWithDrafts | PausedNoCredential

  /** The time the loop runs in. */
  datatype Window = Window(start: int, end: int) {
    predicate OneDay() {
      DayStart(start) == DayStart(end)
    }

    ghost predicate Covers(clock: nat -> int) {
      forall i :: start <= clock(i) <= end
    }

    /** Every cooldown is over before the window or lasts past its end. */
    predicate Steady(creds: Credentials) {
      forall c :: c in creds && creds[c].cooldownUntil.Some? ==>
        creds[c].cooldownUntil.value < start || end <= creds[c].cooldownUntil.value
    }

    /** A cooldown this error sets at time now does not run out inside the window. */
    predicate Outlasts(error: SendError, now: int) {
      && (error.Network? ==> end <= now + 900_000_000)
      && (error.Response? && error.code in {421, 450, 451} ==> end <= now + 3_600_000_000)
    }

    ghost predicate NothingRunsOut(clock: nat -> int, answers: nat -> SendResult) {
      forall i: nat :: answers(i).Failure? ==> Outlasts(answers(i).error, clock(2 * i + 1))
    }
  }

  /**
   The credentials that may be usable somewhere in the window. The daily limit rules one out
   only when no midnight falls into the window.
   */
  function Usable(rows: Rows, creds: Credentials, assignment: set<int>, window: Window): set<int> {
    set c | c in creds && (assignment == {} || c in assignment) && Active(creds[c], window.end)
            && (window.OneDay() ==> UnderLimit(rows, creds, c, window.end))
  }

  lemma SameDay(start: int, now: int, end: int)
    requires start <= now <= end && DayStart(start) == DayStart(end)
    ensures DayStart(now) == DayStart(start)
  {
  }

  /** What the pool query returns inside the window is usable; on one day it is all that is. */
  lemma PoolIsUsable(rows: Rows, creds: Credentials, assignment: set<int>, window: Window, now: int)
    requires window.Steady(creds) && window.start <= now <= window.end
    ensures Pool(rows, creds, assignment, now) <= Usable(rows, creds, assignment, window)
    ensures window.OneDay() ==> Pool(rows, creds, assignment, now) == Usable(rows, creds, assignment, window)
  {
    if window.OneDay() {
      SameDay(window.start, now, window.end);
      forall c ensures SentToday(rows, c, now) == SentToday(rows, c, window.end) {}
    }
    forall c | c in creds ensures Active(creds[c], now) <==> Active(creds[c], window.end) {}
  }

  /** A send that counts against no fewer rows leaves no more credentials usable. */
  lemma UsableShrinks(rows: Rows, rows': Rows, creds: Credentials, assignment: set<int>, window: Window)
    requires forall c :: SentToday(rows, c, window.end) <= SentToday(rows', c, window.end)
    ensures Usable(rows', creds, assignment, window) <= Usable(rows, creds, assignment, window)
  {
    forall c | c in Usable(rows', creds, assignment, window) ensures c in Usable(rows, creds, assignment, window) {
      SubsetSize(SentToday(rows, c, window.end), SentToday(rows', c, window.end));
    }
  }

  /** After a retryable error the credential just used is no longer usable. */
  lemma PenaltyDisables(rows: Rows, creds: Credentials, assignment: set<int>, window: Window, c: int, error: SendError, now: int)
    requires Retries(error) && c in creds && window.Outlasts(error, now) && window.Steady(creds)
    ensures Usable(rows, Penalised(creds, c, error, now), assignment, window) <= Usable(rows, creds, assignment, window) - {c}
    ensures window.Steady(Penalised(creds, c, error, now))
  {
  }

  /** Rows the loop may still work on plus credentials it may still lose. */
  function Remaining(rows: Rows, creds: Credentials, campaign: int, assignment: set<int>, window: Window): nat {
    |WithStatus(rows, campaign, Queued)| + |Usable(rows, creds, assignment, window)|
  }

  /** Only rows in `scope` differ, and they differ only in dispatch state. */
  ghost predicate Touches(before: Rows, after: Rows, scope: set<int>) {
    && after.Keys == before.Keys
    && (forall e :: e in before && e !in scope ==> after[e] == before[e])
    && (forall e :: e in before ==> after[e].campaign == before[e].campaign && after[e].selected == before[e].selected)
  }

  /** A pass that settles or retries its row: the remaining work shrinks. */
  lemma SettledPass(rows: Rows, creds: Credentials, campaign: int, assignment: set<int>, window: Window,
                    e: int, c: int, error: SendError, claimAt: int, now: int)
    requires e in WithStatus(rows, campaign, Queued) && c in Usable(rows, creds, assignment, window)
    requires window.Outlasts(error, now) && window.Steady(creds)
    ensures var rows' := Settled(Claimed(rows, e, claimAt), e, c, error);
            Remaining(rows', Penalised(creds, c, error, now), campaign, assignment, window)
            < Remaining(rows, creds, campaign, assignment, window)
    ensures window.Steady(Penalised(creds, c, error, now))
  {
    var rows' := Settled(Claimed(rows, e, claimAt), e, c, error);
    var creds' := Penalised(creds, c, error, now);
    var queued, queued' := WithStatus(rows, campaign, Queued), WithStatus(rows', campaign, Queued);
    var usable, usable' := Usable(rows, creds, assignment, window), Usable(rows', creds', assignment, window);
    forall x ensures SentToday(rows, x, window.end) == SentToday(rows', x, window.end) {}
    UsableShrinks(rows, rows', creds', assignment, window);
    if Retries(error) {
      PenaltyDisables(rows, creds, assignment, window, c, error, now);
      assert queued' == queued;
      SubsetSize(usable', usable - {c});
    } else {
      assert queued' == queued - {e};
      SubsetSize(usable', usable);
    }
  }

  lemma SentPass(rows: Rows, creds: Credentials, campaign: int, assignment: set<int>, window: Window,
                 e: int, c: int, claimAt: int, now: int)
    requires e in WithStatus(rows, campaign, Queued)
    ensures var rows' := MarkedSent(Claimed(rows, e, claimAt), e, c, now);
            Remaining(rows', creds, campaign, assignment, window) < Remaining(rows, creds, campaign, assignment, window)
  {
    var rows' := MarkedSent(Claimed(rows, e, claimAt), e, c, now);
    assert WithStatus(rows', campaign, Queued) == WithStatus(rows, campaign, Queued) - {e};
    forall x ensures SentToday(rows, x, window.end) <= SentToday(rows', x, window.end) {}
    UsableShrinks(rows, rows', creds, assignment, window);
    SubsetSize(Usable(rows', creds, assignment, window), Usable(rows, creds, assignment, window));
  }

  /** The choices of n successive calls on one pool, from a given index on. */
  function Choices(pool: seq<int>, index: nat, n: nat): seq<int>
    requires pool != []
    decreases n
  {
    if n == 0 then [] else [pool[index % |pool|]] + Choices(pool, (index + 1) % |pool|, n - 1)
  }

  /** The next credential of the round, and where the round goes on. */
  method GetNextCredential(pool: seq<int>, index: nat) returns (cred: int, next: nat)
    requires pool != []
    ensures cred in pool && next < |pool| && cred == pool[index % |pool|] && next == (index + 1) % |pool|
    ensures forall n: nat :: Choices(pool, index, n + 1) == [cred] + Choices(pool, next, n)
  {
    cred := pool[index % |pool|];
    next := (index + 1) % |pool|;
  }

  lemma Wraps(index: nat, n: nat)
    requires index < n
    ensures index % n == index && (index + 1) % n == if index + 1 < n then index + 1 else 0
  {
    if index + 1 == n {
      assert n % n == 0;
    }
  }

  /** The i-th choice, written without going round: first to the end of the pool, then from its start. */
  lemma {:induction false} ChoiceAt(pool: seq<int>, index: nat, n: nat, i: nat)
    requires pool != [] && index < |pool| && i < n <= |pool|
    ensures |Choices(pool, index, n)| == n
    ensures Choices(pool, index, n)[i] == pool[if index + i < |pool| then index + i else index + i - |pool|]
    decreases n
  {
    var next := (index + 1) % |pool|;
    Wraps(index, |pool|);
    if i > 0 {
      ChoiceAt(pool, next, n - 1, i - 1);
    } else if n > 1 {
      ChoiceAt(pool, next, n - 1, 0);
    }
  }

  /** |pool| successive calls on one pool choose each credential exactly once, wherever the round starts. */
  lemma RoundRobinIsFair(pool: seq<int>, index: nat)
    requires pool != [] && index < |pool| && forall i, j :: 0 <= i < j < |pool| ==> pool[i] != pool[j]
    ensures var round := Choices(pool, index, |pool|);
            && |round| == |pool|
            && (forall i, j :: 0 <= i < j < |round| ==> round[i] != round[j])
            && (forall c :: c in round <==> c in pool)
  {
    var n, round := |pool|, Choices(pool, index, |pool|);
    ChoiceAt(pool, index, n, 0);
    forall i | 0 <= i < n ensures round[i] == pool[if index + i < n then index + i else index + i - n] {
      ChoiceAt(pool, index, n, i);
    }
    forall c | c in pool ensures c in round {
      var k :| 0 <= k < n && pool[k] == c;
      var i := if index <= k then k - index else k - index + n;
      assert round[i] == c;
    }
  }

  // ---- what the passes do, as a record ----

  /** One e-mail worked on: the row, the credential and the pool it was chosen from, when, and the server's answer. */
  datatype Turn = Turn(email: int, cred: int, pool: seq<int>, claimAt: int, now: int, answer: SendResult)

  predicate Taken(answer: SendResult) {
    answer.Delivered? || answer.taken
  }

  function TurnRows(rows: Rows, turn: Turn): Rows {
    if turn.email !in rows then rows
    else
      var claimed := Claimed(rows, turn.email, turn.claimAt);
      match turn.answer
      case Delivered => MarkedSent(claimed, turn.email, turn.cred, turn.now)
      case Failure(error, _) => Settled(claimed, turn.email, turn.cred, error)
  }

  function TurnCreds(creds: Credentials, turn: Turn): Credentials {
    match turn.answer
    case Delivered => creds
    case Failure(error, _) => Penalised(creds, turn.cred, error, turn.now)
  }

  /** The lowest queued row of the campaign, sent through the pool's next credential in the round. */
  ghost predicate FairTurn(rows: Rows, creds: Credentials, campaign: int, assignment: set<int>, index: nat, turn: Turn) {
    && turn.email in WithStatus(rows, campaign, Queued) && (forall e :: e in WithStatus(rows, campaign, Queued) ==> turn.email <= e)
    && turn.pool != [] && turn.cred == turn.pool[index % |turn.pool|]
    && (forall i, j :: 0 <= i < j < |turn.pool| ==> turn.pool[i] != turn.pool[j])
    && (forall c :: c in turn.pool <==> c in Pool(Claimed(rows, turn.email, turn.claimAt), creds, assignment, turn.claimAt))
  }

  function RowsAfter(rows: Rows, turns: seq<Turn>): Rows {
    if turns == [] then rows else TurnRows(RowsAfter(rows, turns[..|turns| - 1]), turns[|turns| - 1])
  }

  function CredsAfter(creds: Credentials, turns: seq<Turn>): Credentials {
    if turns == [] then creds else TurnCreds(CredsAfter(creds, turns[..|turns| - 1]), turns[|turns| - 1])
  }

  /** The round goes on with the next credential of the pool, and from the start after its last. */
  function IndexNext(index: nat, pool: seq<int>): nat {
    if pool == [] then 0 else (index + 1) % |pool|
  }

  /** Where the round stands after the turns. */
  function IndexAfter(turns: seq<Turn>): nat {
    if turns == [] then 0 else IndexNext(IndexAfter(turns[..|turns| - 1]), turns[|turns| - 1].pool)
  }

  /** The rows whose message the server took, in order. */
  function TakenRows(turns: seq<Turn>): seq<int> {
    if turns == [] then []
    else
      TakenRows(turns[..|turns| - 1]) + if Taken(turns[|turns| - 1].answer) then [turns[|turns| - 1].email] else []
  }

  ghost predicate Played(rows: Rows, creds: Credentials, campaign: int, assignment: set<int>, turns: seq<Turn>) {
    turns == [] ||
    var init := turns[..|turns| - 1];
    && Played(rows, creds, campaign, assignment, init)
    && FairTurn(RowsAfter(rows, init), CredsAfter(creds, init), campaign, assignment, IndexAfter(init), turns[|turns| - 1])
  }

  /** The answers and clock readings of the turns are those given, in order. */
  ghost predicate InOrder(turns: seq<Turn>, clock: nat -> int, answers: nat -> SendResult) {
    forall i: nat :: i < |turns| ==>
      turns[i].answer == answers(i) && turns[i].claimAt == clock(2 * i) && turns[i].now == clock(2 * i + 1)
  }

  lemma OneMoreTurn(rows: Rows, creds: Credentials, campaign: int, assignment: set<int>, turns: seq<Turn>, turn: Turn)
    requires Played(rows, creds, campaign, assignment, turns)
    requires FairTurn(RowsAfter(rows, turns), CredsAfter(creds, turns), campaign, assignment, IndexAfter(turns), turn)
    ensures Played(rows, creds, campaign, assignment, turns + [turn])
    ensures RowsAfter(rows, turns + [turn]) == TurnRows(RowsAfter(rows, turns), turn)
    ensures CredsAfter(creds, turns + [turn]) == TurnCreds(CredsAfter(creds, turns), turn)
    ensures IndexAfter(turns + [turn]) == IndexNext(IndexAfter(turns), turn.pool)
    ensures TakenRows(turns + [turn]) == if Taken(turn.answer) then TakenRows(turns) + [turn.email] else TakenRows(turns)
  {
    assert (turns + [turn])[..|turns|] == turns;
  }

  /** A turn settles or retries one queued row: drafts stay, the queue does not grow, and the remaining work shrinks. */
  lemma TurnProgress(rows: Rows, creds: Credentials, campaign: int, assignment: set<int>, window: Window, index: nat, turn: Turn)
    requires FairTurn(rows, creds, campaign, assignment, index, turn)
    requires window.Steady(creds) && window.start <= turn.claimAt <= window.end
    requires turn.answer.Failure? ==> window.Outlasts(turn.answer.error, turn.now)
    ensures var rows', creds' := TurnRows(rows, turn), TurnCreds(creds, turn);
            && Remaining(rows', creds', campaign, assignment, window) < Remaining(rows, creds, campaign, assignment, window)
            && window.Steady(creds')
  {
    PoolAfterClaim(rows, creds, assignment, window, turn.email, campaign, turn.claimAt);
    assert turn.cred in turn.pool;
    match turn.answer
    case Delivered => SentPass(rows, creds, campaign, assignment, window, turn.email, turn.cred, turn.claimAt, turn.now);
    case Failure(error, _) =>
      SettledPass(rows, creds, campaign, assignment, window, turn.email, turn.cred, error, turn.claimAt, turn.now);
  }

  lemma TurnTouches(rows: Rows, campaign: int, turn: Turn)
    requires turn.email in WithStatus(rows, campaign, Queued)
    ensures var rows' := TurnRows(rows, turn);
            && Touches(rows, rows', {turn.email})
            && WithStatus(rows', campaign, Draft) == WithStatus(rows, campaign, Draft)
            && WithStatus(rows', campaign, Queued) <= WithStatus(rows, campaign, Queued)
            && (rows'[turn.email].status.Sent? <==> turn.answer.Delivered?)
  {
    var rows' := TurnRows(rows, turn);
    assert forall e :: e in WithStatus(rows', campaign, Draft) <==> e in WithStatus(rows, campaign, Draft);
  }

  lemma ClaimTouches(rows: Rows, rows': Rows, campaign: int, claimAt: int, e: int)
    requires LeftClaimed(rows, rows', campaign, claimAt, e)
    ensures Touches(rows, rows', {e})
    ensures WithStatus(rows', campaign, Draft) == WithStatus(rows, campaign, Draft)
    ensures WithStatus(rows', campaign, Queued) <= WithStatus(rows, campaign, Queued)
  {
    assert forall x :: x in WithStatus(rows', campaign, Draft) <==> x in WithStatus(rows, campaign, Draft);
  }

  lemma PoolAfterClaim(rows: Rows, creds: Credentials, assignment: set<int>, window: Window, e: int, campaign: int, claimAt: int)
    requires e in WithStatus(rows, campaign, Queued) && window.Steady(creds)
    requires window.start <= claimAt <= window.end
    ensures Pool(Claimed(rows, e, claimAt), creds, assignment, claimAt) <= Usable(rows, creds, assignment, window)
    ensures window.OneDay() ==>
              Pool(Claimed(rows, e, claimAt), creds, assignment, claimAt) == Usable(rows, creds, assignment, window)
    ensures Usable(Claimed(rows, e, claimAt), creds, assignment, window) == Usable(rows, creds, assignment, window)
  {
    var rows' := Claimed(rows, e, claimAt);
    forall c ensures SentToday(rows', c, window.end) == SentToday(rows, c, window.end) {}
    UsableShrinks(rows, rows', creds, assignment, window);
    UsableShrinks(rows', rows, creds, assignment, window);
    PoolIsUsable(rows', creds, assignment, window, claimAt);
  }

  /** What one pass of the loop did. */
  datatype Pass = Ended(exit: Exit) | Worked(turn: Turn)

  /** The lowest queued row of the campaign was claimed and is left SENDING. */
  ghost predicate LeftClaimed(before: Rows, after: Rows, campaign: int, claimAt: int, e: int) {
    && e in WithStatus(before, campaign, Queued) && (forall x :: x in WithStatus(before, campaign, Queued) ==> e <= x)
    && after == Claimed(before, e, claimAt)
  }

  /** One pass: claim, choose a credential, send, settle. */
  method DispatchPass(db: OutreachDb, campaign: int, assignment: set<int>, window: Window,
                      claimAt: int, now: int, index: nat, answer: SendResult)
    returns (pass: Pass, next: nat)
    requires window.Steady(db.creds) && window.start <= claimAt <= window.end
    modifies db
    ensures pass.Worked? ==>
              && FairTurn(old(db.rows), old(db.creds), campaign, assignment, index, pass.turn)
              && pass.turn.claimAt == claimAt && pass.turn.now == now && pass.turn.answer == answer
              && db.rows == TurnRows(old(db.rows), pass.turn) && db.creds == TurnCreds(old(db.creds), pass.turn)
              && next == IndexNext(index, pass.turn.pool)
    ensures pass == Ended(PausedNoCredential) ==>
              && Pool(db.rows, db.creds, assignment, claimAt) == {}
              && (window.OneDay() ==> Usable(db.rows, db.creds, assignment, window) == {})
              && (exists e :: LeftClaimed(old(db.rows), db.rows, campaign, claimAt, e)) && db.creds == old(db.creds)
    ensures pass.Ended? && !pass.exit.PausedNoCredential? ==>
              && db.rows == old(db.rows) && db.creds == old(db.creds) && WithStatus(db.rows, campaign, Queued) == {}
              && (pass.exit.Completed? <==> WithStatus(db.rows, campaign, Draft) == {})
  {
    ghost var rows, creds := db.rows, db.creds;
    next := index;
    var claimed := db.ClaimNextQueuedEmail(campaign, claimAt);
    if claimed.None? {
      pass := Ended(if WithStatus(db.rows, campaign, Draft) == {} then Completed else PausedWithDrafts);
      return;
    }
    var e := claimed.value;
    var pool := db.ResolveCredentialPool(assignment, claimAt);
    PoolAfterClaim(rows, creds, assignment, window, e, campaign, claimAt);
    if pool == [] {
      assert forall c :: c !in Pool(db.rows, db.creds, assignment, claimAt);
      assert LeftClaimed(rows, db.rows, campaign, claimAt, e);
      pass := Ended(PausedNoCredential);
      return;
    }
    var cred;
    cred, next := GetNextCredential(pool, index);
    match answer {
      case Delivered =>
        db.MarkEmailSent(e, cred, now);
      case Failure(error, taken) =>
        db.HandleSendError(e, cred, error, now);
    }
    pass := Worked(Turn(e, cred, pool, claimAt, now, answer));
  }

  /** The tables after some turns, and what they still have in common with the start. */
  ghost predicate Going(rows: Rows, creds: Credentials, campaign: int, assignment: set<int>, window: Window, turns: seq<Turn>,
                        rows': Rows, creds': Credentials) {
    var scope := WithStatus(rows, campaign, Queued);
    && Played(rows, creds, campaign, assignment, turns)
    && rows' == RowsAfter(rows, turns) && creds' == CredsAfter(creds, turns) && window.Steady(creds')
    && |turns| + Remaining(rows', creds', campaign, assignment, window) <= Remaining(rows, creds, campaign, assignment, window)
    && Touches(rows, rows', scope) && WithStatus(rows', campaign, Queued) <= scope
    && WithStatus(rows', campaign, Draft) == WithStatus(rows, campaign, Draft)
    && (forall e :: e in TakenRows(turns) ==> e in scope)
    && (forall e :: e in scope && rows'[e].status.Sent? ==> e in TakenRows(turns))
  }

  lemma TakenGrows(rows: Rows, rows': Rows, scope: set<int>, turns: seq<Turn>, turn: Turn)
    requires (forall e :: e in TakenRows(turns) ==> e in scope) && scope <= rows.Keys && turn.email in scope
    requires forall e :: e in scope && rows[e].status.Sent? ==> e in TakenRows(turns)
    requires Touches(rows, rows', {turn.email}) && (rows'[turn.email].status.Sent? <==> turn.answer.Delivered?)
    ensures forall e :: e in TakenRows(turns + [turn]) ==> e in scope
    ensures forall e :: e in scope && rows'[e].status.Sent? ==> e in TakenRows(turns + [turn])
  {
    assert (turns + [turn])[..|turns|] == turns;
    var before, after := TakenRows(turns), TakenRows(turns + [turn]);
    assert forall e :: e in before ==> e in after;
    if Taken(turn.answer) {
      assert after[|before|] == turn.email;
    }
  }

  lemma GoingOn(rows: Rows, creds: Credentials, campaign: int, assignment: set<int>, window: Window, turns: seq<Turn>,
                now: Rows, nowCreds: Credentials, turn: Turn)
    requires Going(rows, creds, campaign, assignment, window, turns, now, nowCreds)
    requires FairTurn(now, nowCreds, campaign, assignment, IndexAfter(turns), turn)
    requires window.start <= turn.claimAt <= window.end
    requires turn.answer.Failure? ==> window.Outlasts(turn.answer.error, turn.now)
    ensures Going(rows, creds, campaign, assignment, window, turns + [turn], TurnRows(now, turn), TurnCreds(nowCreds, turn))
    ensures Remaining(TurnRows(now, turn), TurnCreds(nowCreds, turn), campaign, assignment, window)
            < Remaining(now, nowCreds, campaign, assignment, window)
  {
    TurnProgress(now, nowCreds, campaign, assignment, window, IndexAfter(turns), turn);
    TurnTouches(now, campaign, turn);
    OneMoreTurn(rows, creds, campaign, assignment, turns, turn);
    TakenGrows(now, TurnRows(now, turn), WithStatus(rows, campaign, Queued), turns, turn);
  }

  /** The loop's variables agree with the record. */
  ghost predicate KeptUp(turns: seq<Turn>, clock: nat -> int, answers: nat -> SendResult, passes: nat, index: nat, accepted: seq<int>) {
    InOrder(turns, clock, answers) && passes == |turns| && index == IndexAfter(turns) && accepted == TakenRows(turns)
  }

  lemma KeptUpNext(turns: seq<Turn>, clock: nat -> int, answers: nat -> SendResult, passes: nat, passes': nat, index': nat,
                   accepted': seq<int>, turn: Turn)
    requires InOrder(turns, clock, answers) && passes == |turns| && passes' == passes + 1
    requires index' == IndexNext(IndexAfter(turns), turn.pool)
    requires accepted' == if Taken(turn.answer) then TakenRows(turns) + [turn.email] else TakenRows(turns)
    requires turn.answer == answers(passes) && turn.claimAt == clock(2 * passes) && turn.now == clock(2 * passes + 1)
    ensures KeptUp(turns + [turn], clock, answers, passes', index', accepted')
  {
    assert (turns + [turn])[..|turns|] == turns;
    forall i: nat | i < |turns + [turn]|
      ensures var x := (turns + [turn])[i];
              x.answer == answers(i) && x.claimAt == clock(2 * i) && x.now == clock(2 * i + 1)
    {
      if i < |turns| {
        assert (turns + [turn])[i] == turns[i];
      }
    }
  }

  /** What the loop leaves behind when it ends, for whatever reason. */
  ghost predicate Finished(rows: Rows, creds: Credentials, campaign: int, assignment: set<int>, window: Window, clock: nat -> int,
                           turns: seq<Turn>, exit: Exit, rows': Rows, creds': Credentials) {
    var scope := WithStatus(rows, campaign, Queued);
    && Played(rows, creds, campaign, assignment, turns) && creds' == CredsAfter(creds, turns)
    && |turns| <= Remaining(rows, creds, campaign, assignment, window)
    && Touches(rows, rows', scope) && WithStatus(rows', campaign, Draft) == WithStatus(rows, campaign, Draft)
    && (forall e :: e in TakenRows(turns) ==> e in scope)
    && (forall e :: e in scope && rows'[e].status.Sent? ==> e in TakenRows(turns))
    && if exit.PausedNoCredential? then
         && (exists e :: LeftClaimed(RowsAfter(rows, turns), rows', campaign, clock(2 * |turns|), e) && e in scope)
         && Pool(rows', creds', assignment, clock(2 * |turns|)) == {}
         && (window.OneDay() ==> Usable(rows', creds', assignment, window) == {})
       else
         && rows' == RowsAfter(rows, turns) && WithStatus(rows', campaign, Queued) == {}
         && (exit.Completed? <==> WithStatus(rows', campaign, Draft) == {})
  }

  lemma StuckIsFinished(rows: Rows, creds: Credentials, campaign: int, assignment: set<int>, window: Window, clock: nat -> int,
                        turns: seq<Turn>, now: Rows, rows': Rows, creds': Credentials, e: int)
    requires Going(rows, creds, campaign, assignment, window, turns, now, creds')
    requires LeftClaimed(now, rows', campaign, clock(2 * |turns|), e)
    requires Pool(rows', creds', assignment, clock(2 * |turns|)) == {}
    requires window.OneDay() ==> Usable(rows', creds', assignment, window) == {}
    ensures Finished(rows, creds, campaign, assignment, window, clock, turns, PausedNoCredential, rows', creds')
  {
    ClaimTouches(now, rows', campaign, clock(2 * |turns|), e);
  }

  /** The body of the loop, with its record. */
  method DispatchNext(db: OutreachDb, campaign: int, assignment: set<int>, window: Window, clock: nat -> int, answers: nat -> SendResult,
                      ghost rows: Rows, ghost creds: Credentials, ghost turns: seq<Turn>, passes: nat, index: nat, accepted: seq<int>)
    returns (end: Option<Exit>, index': nat, accepted': seq<int>, ghost turns': seq<Turn>)
    requires window.Covers(clock) && window.NothingRunsOut(clock, answers)
    requires Going(rows, creds, campaign, assignment, window, turns, db.rows, db.creds)
    requires KeptUp(turns, clock, answers, passes, index, accepted)
    modifies db
    ensures end.None? ==> Going(rows, creds, campaign, assignment, window, turns', db.rows, db.creds)
    ensures end.None? ==> KeptUp(turns', clock, answers, passes + 1, index', accepted')
    ensures end.None? ==> Remaining(db.rows, db.creds, campaign, assignment, window)
                          < Remaining(old(db.rows), old(db.creds), campaign, assignment, window)
    ensures end.Some? ==> turns' == turns && accepted' == accepted
    ensures end.Some? ==> Finished(rows, creds, campaign, assignment, window, clock, turns, end.value, db.rows, db.creds)
  {
    end, accepted', turns' := None, accepted, turns;
    ghost var now, nowCreds := db.rows, db.creds;
    var pass;
    pass, index' := DispatchPass(db, campaign, assignment, window, clock(2 * passes), clock(2 * passes + 1), index, answers(passes));
    match pass {
      case Ended(exit) =>
        if exit.PausedNoCredential? {
          ghost var e :| LeftClaimed(now, db.rows, campaign, clock(2 * passes), e);
          StuckIsFinished(rows, creds, campaign, assignment, window, clock, turns, now, db.rows, db.creds, e);
        }
        end := Some(exit);
      case Worked(turn) =>
        if Taken(turn.answer) {
          accepted' := accepted + [turn.email];
        }
        GoingOn(rows, creds, campaign, assignment, window, turns, now, nowCreds, turn);
        KeptUpNext(turns, clock, answers, passes, passes + 1, index', accepted', turn);
        turns' := turns + [turn];
    }
  }

  /**
   The loop proper. It ends after at most Q + C + 1 passes for Q queued rows and C usable credentials,
   touches only the campaign's queued rows, and its exit tells what is left. `turns` is the record of the
   passes that worked on a row; `accepted` lists the rows whose message the server took, in order.
   */
  method DispatchQueued(db: OutreachDb, campaign: int, assignment: set<int>, window: Window,
                        clock: nat -> int, answers: nat -> SendResult)
    returns (passes: nat, exit: Exit, accepted: seq<int>, ghost turns: seq<Turn>)
    requires window.Covers(clock) && window.Steady(db.creds) && window.NothingRunsOut(clock, answers)
    modifies db
    ensures Played(old(db.rows), old(db.creds), campaign, assignment, turns) && InOrder(turns, clock, answers)
    ensures passes == |turns| + 1 && accepted == TakenRows(turns) && db.creds == CredsAfter(old(db.creds), turns)
    ensures !exit.PausedNoCredential? ==> db.rows == RowsAfter(old(db.rows), turns)
    ensures exit.PausedNoCredential? ==>
              exists e :: LeftClaimed(RowsAfter(old(db.rows), turns), db.rows, campaign, clock(2 * |turns|), e)
    ensures 0 < passes <= Remaining(old(db.rows), old(db.creds), campaign, assignment, window) + 1
    ensures Touches(old(db.rows), db.rows, WithStatus(old(db.rows), campaign, Queued))
    ensures WithStatus(db.rows, campaign, Draft) == WithStatus(old(db.rows), campaign, Draft)
    ensures forall e :: e in accepted ==> e in WithStatus(old(db.rows), campaign, Queued)
    ensures forall e :: e in WithStatus(old(db.rows), campaign, Queued) && db.rows[e].status == Sent ==> e in accepted
    ensures !exit.PausedNoCredential? ==>
              WithStatus(db.rows, campaign, Queued) == {} && (exit.Completed? <==> WithStatus(db.rows, campaign, Draft) == {})
    ensures exit.PausedNoCredential? ==>
              && (exists i :: Pool(db.rows, db.creds, assignment, clock(i)) == {})
              && (window.OneDay() ==> Usable(db.rows, db.creds, assignment, window) == {})
              && (exists e :: e in WithStatus(old(db.rows), campaign, Queued) && db.rows[e].status == Sending)
  {
    passes, accepted, turns := 0, [], [];
    var index, end := 0, None;
    ghost var rows, creds := db.rows, db.creds;
    while end.None?
      invariant end.None? ==> Going(rows, creds, campaign, assignment, window, turns, db.rows, db.creds)
      invariant end.None? ==> KeptUp(turns, clock, answers, passes, index, accepted)
      invariant end.Some? ==> Finished(rows, creds, campaign, assignment, window, clock, turns, end.value, db.rows, db.creds)
      invariant end.Some? ==> InOrder(turns, clock, answers) && passes == |turns| + 1 && accepted == TakenRows(turns)
      decreases if end.None? then 1 + Remaining(db.rows, db.creds, campaign, assignment, window) else 0
    {
      end, index, accepted, turns := DispatchNext(db, campaign, assignment, window, clock, answers, rows, creds, turns,
                                                  passes, index, accepted);
      passes := passes + 1;
    }
    exit := end.value;
  }

  /** Neither a queued row nor a selected draft in the campaign. */
  predicate NothingToSend(rows: Rows, campaign: int) {
    WithStatus(rows, campaign, Queued) == {} && SelectedDrafts(rows, campaign) == {}
  }

  /**
   A whole run: queues the selected drafts, then dispatches within the same bounds. It completes with
   drafts left exactly when there was nothing to send and a draft to leave.
   */
  method RunCampaignDispatch(db: OutreachDb, campaign: int, assignment: set<int>, window: Window,
                             clock: nat -> int, answers: nat -> SendResult)
    returns (passes: nat, exit: Exit, accepted: seq<int>, ghost turns: seq<Turn>)
    requires window.Covers(clock) && window.Steady(db.creds) && window.NothingRunsOut(clock, answers)
    modifies db
    ensures Played(QueuedSelected(old(db.rows), campaign), old(db.creds), campaign, assignment, turns) && InOrder(turns, clock, answers)
    ensures accepted == TakenRows(turns) && db.creds == CredsAfter(old(db.creds), turns)
    ensures !exit.PausedNoCredential? ==> db.rows == RowsAfter(QueuedSelected(old(db.rows), campaign), turns)
    ensures var queuedUp := QueuedSelected(old(db.rows), campaign);
            && passes <= Remaining(queuedUp, old(db.creds), campaign, assignment, window) + 1
            && Touches(queuedUp, db.rows, WithStatus(queuedUp, campaign, Queued))
            && (forall e :: e in accepted ==> e in WithStatus(queuedUp, campaign, Queued))
            && (forall e :: e in WithStatus(queuedUp, campaign, Queued) && db.rows[e].status == Sent ==> e in accepted)
    ensures NothingToSend(old(db.rows), campaign) ==> passes == 0 && exit == Completed && db.rows == old(db.rows)
    ensures !exit.PausedNoCredential? ==> WithStatus(db.rows, campaign, Queued) == {}
    ensures exit.PausedWithDrafts? ==> WithStatus(db.rows, campaign, Draft) != {}
    ensures exit.Completed? && WithStatus(db.rows, campaign, Draft) != {}
            <==> NothingToSend(old(db.rows), campaign) && WithStatus(old(db.rows), campaign, Draft) != {}
    ensures exit.PausedNoCredential? ==>
              && (exists i :: Pool(db.rows, db.creds, assignment, clock(i)) == {})
              && (window.OneDay() ==> Usable(db.rows, db.creds, assignment, window) == {})
              && (passes > 0 ==> exists e :: e in WithStatus(QueuedSelected(old(db.rows), campaign), campaign, Queued)
                                             && db.rows[e].status == Sending)
  {
    QueueGrowsBySelected(db.rows, campaign);
    NothingSelected(db.rows, campaign);
    var count := db.QueueCampaignEmails(campaign);
    if count == 0 && WithStatus(db.rows, campaign, Queued) == {} {
      return 0, Completed, [], [];
    }
    var pool := db.ResolveCredentialPool(assignment, clock(0));
    PoolIsUsable(db.rows, db.creds, assignment, window, clock(0));
    if pool == [] {
      assert forall c :: c !in Pool(db.rows, db.creds, assignment, clock(0));
      return 0, PausedNoCredential, [], [];
    }
    passes, exit, accepted, turns := DispatchQueued(db, campaign, assignment, window, clock, answers);
  }

  lemma NothingSelected(rows: Rows, campaign: int)
    ensures NothingToSend(rows, campaign) ==> QueuedSelected(rows, campaign) == rows
    ensures NothingToSend(rows, campaign) <==> WithStatus(QueuedSelected(rows, campaign), campaign, Queued) == {}
  {
    QueueGrowsBySelected(rows, campaign);
    if NothingToSend(rows, campaign) {
      forall e | e in rows ensures QueuedSelected(rows, campaign)[e] == rows[e] {
        assert e !in SelectedDrafts(rows, campaign);
      }
    }
  }

  /** A campaign whose only draft is deselected is reported as completed. */
  method CompletedWithADraft() returns (exit: Exit, drafts: set<int>)
    ensures exit == Completed && drafts == {1}
  {
    var db := new OutreachDb(map[1 := EmailRow(0, false, Draft, None, None, None)], map[]);
    assert forall e :: e !in WithStatus(db.rows, 0, Queued) && e !in SelectedDrafts(db.rows, 0);
    var _, end, _, _ := RunCampaignDispatch(db, 0, {}, Window(0, 0), _ => 0, _ => Delivered);
    exit, drafts := end, WithStatus(db.rows, 0, Draft);
  }
}
