/**
 Campaign e-mail rows and SMTP credentials: the row updates of the outreach
 mixin, as functions on the two tables, and the class whose methods perform them.
 Times are whole microseconds, the resolution of the stored timestamps.
 */
module Outreach {
  import opened Prelude

  const SECOND := 1_000_000
  const DAY := 86_400 * SECOND
  /** Age past which the recovery sweep requeues a SENDING row. */
  const STUCK_THRESHOLD := 600 * SECOND
  const RATE_LIMIT_COOLDOWN := 3_600 * SECOND
  const NETWORK_COOLDOWN := 900 * SECOND

  datatype EmailStatus = Draft | Queued | Sending | Sent | Failed

  datatype EmailRow = EmailRow(
    campaign: int,
    selected: bool,
    status: EmailStatus,
    sendingSince: Option<int>,
    sentAt: Option<int>,
    credential: Option<int>)

  type Rows = map<int, EmailRow>

  /** dailyLimit == None stands for a missing or zero limit. */
  datatype Credential = Credential(active: bool, cooldownUntil: Option<int>, dailyLimit: Option<nat>)

  type Credentials = map<int, Credential>

  /** What one attempt to send reports when it does not return normally. */
  datatype SendError =
    | AuthError
    | Response(code: int)
    | RecipientsRefused(code: int)
    | Network
    | Unexpected

  // ---- selections over the tables ----

  function WithStatus(rows: Rows, campaign: int, status: EmailStatus): set<int> {
    set e | e in rows && rows[e].campaign == campaign && rows[e].status == status
  }

  predicate Stuck(row: EmailRow, now: int) {
    row.status == Sending && row.sendingSince.Some? && row.sendingSince.value < now - STUCK_THRESHOLD
  }

  function StuckRows(rows: Rows, now: int): set<int> {
    set e | e in rows && Stuck(rows[e], now)
  }

  function DayStart(now: int): int {
    now - now % DAY
  }

  /** The rows counted against a credential's daily limit at time now. */
  function SentToday(rows: Rows, cred: int, now: int): set<int> {
    set e | e in rows && rows[e].status == Sent && rows[e].credential == Some(cred)
            && rows[e].sentAt.Some? && DayStart(now) <= rows[e].sentAt.value
  }

  /** Active and not cooling: the selection both credential queries document. */
  predicate Active(c: Credential, now: int) {
    c.active && (c.cooldownUntil.None? || c.cooldownUntil.value < now)
  }

  predicate UnderLimit(rows: Rows, creds: Credentials, cred: int, now: int)
    requires cred in creds
  {
    creds[cred].dailyLimit.Some? && creds[cred].dailyLimit.value > 0 ==>
      |SentToday(rows, cred, now)| < creds[cred].dailyLimit.value
  }

  /** Credentials a campaign may send through: its assignment, or every credential when it has none. */
  function Pool(rows: Rows, creds: Credentials, assignment: set<int>, now: int): set<int> {
    set c | c in creds && (assignment == {} || c in assignment) && Active(creds[c], now) && UnderLimit(rows, creds, c, now)
  }

  /** Errors after which the e-mail is put back in the queue instead of failing. */
  predicate Retries(error: SendError) {
    error.AuthError? || error.Network? || (error.Response? && error.code in {421, 450, 451})
  }

  /** A permanent refusal: the recipient's address goes on the blacklist. */
  predicate HardBounce(error: SendError) {
    (error.Response? || error.RecipientsRefused?) && error.code in {550, 553}
  }

  /** A reply that asks to try again later, however it is reported. */
  predicate TemporaryReply(error: SendError) {
    (error.Response? || error.RecipientsRefused?) && error.code in {421, 450, 451}
  }

  // ---- the day of a credential ----

  /** The rows sent through a credential from a given time on. */
  function SentSince(rows: Rows, cred: int, from: int): set<int> {
    set e | e in rows && rows[e].status.Sent? && rows[e].credential == Some(cred) && rows[e].sentAt.Some?
            && from <= rows[e].sentAt.value
  }

  lemma TodayIsSinceMidnight(rows: Rows, cred: int, now: int)
    ensures SentToday(rows, cred, now) == SentSince(rows, cred, now - now % 86_400_000_000)
  {
    assert DayStart(now) == now - now % 86_400_000_000;
  }

  /** A message sent at `at` counts at time now exactly when no midnight lies between, and only against its credential. */
  lemma CountsSinceMidnight(rows: Rows, e: int, c: int, at: int, now: int)
    requires e in rows
    ensures e in SentToday(MarkedSent(rows, e, c, at), c, now) <==> now - now % 86_400_000_000 <= at
    ensures forall d :: d != c ==> e !in SentToday(MarkedSent(rows, e, c, at), d, now)
    ensures forall d, x :: x != e ==> (x in SentToday(MarkedSent(rows, e, c, at), d, now) <==> x in SentToday(rows, d, now))
  {
  }

  /** A credential that has used up its limit stays out of every pool until the next midnight, whatever is sent meanwhile. */
  lemma LimitHoldsUntilMidnight(rows: Rows, rows': Rows, creds: Credentials, assignment: set<int>, c: int, limit: nat, now: int, later: int)
    requires c in creds && creds[c].dailyLimit == Some(limit) && limit > 0
    requires now <= later < now - now % 86_400_000_000 + 86_400_000_000
    requires |SentToday(rows, c, now)| >= limit && SentToday(rows, c, now) <= SentToday(rows', c, now)
    ensures c !in Pool(rows', creds, assignment, later)
  {
    SameMidnight(now, later);
    assert SentToday(rows', c, later) == SentToday(rows', c, now);
    SubsetSize(SentToday(rows, c, now), SentToday(rows', c, later));
  }

  lemma SameMidnight(now: int, later: int)
    requires now <= later < now - now % 86_400_000_000 + 86_400_000_000
    ensures DayStart(later) == DayStart(now)
  {
  }

  /** At midnight the count starts anew: nothing sent before it counts, and an active credential is in the pool again. */
  lemma MidnightResetsTheCount(rows: Rows, creds: Credentials, c: int, midnight: int, now: int)
    requires midnight % 86_400_000_000 == 0 && midnight <= now
    requires forall e :: e in rows && rows[e].sentAt.Some? ==> rows[e].sentAt.value < midnight
    ensures SentToday(rows, c, now) == {}
    ensures c in creds && Active(creds[c], now) ==> c in Pool(rows, creds, {}, now)
  {
    var days, upTo := now / 86_400_000_000, midnight / 86_400_000_000;
    assert now - now % 86_400_000_000 == 86_400_000_000 * days && midnight == 86_400_000_000 * upTo;
    assert upTo <= days;
    assert DayStart(now) == now - now % 86_400_000_000;
    forall e ensures e !in SentToday(rows, c, now) {}
  }

  // ---- single-row updates: an update of a row that is gone touches nothing ----

  function Claimed(rows: Rows, e: int, now: int): Rows
    requires e in rows
  {
    rows[e := rows[e].(status := Sending, sendingSince := Some(now))]
  }

  function MarkedSent(rows: Rows, e: int, cred: int, now: int): Rows {
    if e in rows then rows[e := rows[e].(status := Sent, sentAt := Some(now), credential := Some(cred))] else rows
  }

  function MarkedFailed(rows: Rows, e: int, cred: int): Rows {
    if e in rows then rows[e := rows[e].(status := Failed, credential := Some(cred))] else rows
  }

  function Requeued(rows: Rows, e: int): Rows {
    if e in rows then rows[e := rows[e].(status := Queued, sendingSince := None)] else rows
  }

  function Settled(rows: Rows, e: int, cred: int, error: SendError): Rows {
    if Retries(error) then Requeued(rows, e) else MarkedFailed(rows, e, cred)
  }

  function Penalised(creds: Credentials, cred: int, error: SendError, now: int): Credentials {
    if cred !in creds || !Retries(error) then creds
    else if error.AuthError? then creds[cred := creds[cred].(active := false)]
    else if error.Network? then creds[cred := creds[cred].(cooldownUntil := Some(now + NETWORK_COOLDOWN))]
    else creds[cred := creds[cred].(cooldownUntil := Some(now + RATE_LIMIT_COOLDOWN))]
  }

  // ---- bulk updates ----

  function Recovered(rows: Rows, now: int): Rows {
    map e | e in rows :: if Stuck(rows[e], now) then rows[e].(status := Queued, sendingSince := None) else rows[e]
  }

  function QueuedSelected(rows: Rows, campaign: int): Rows {
    map e | e in rows ::
      if rows[e].campaign == campaign && rows[e].status == Draft && rows[e].selected
      then rows[e].(status := Queued) else rows[e]
  }

  function CancelledQueued(rows: Rows, campaign: int): Rows {
    map e | e in rows ::
      if rows[e].campaign == campaign && rows[e].status == Queued then rows[e].(status := Failed) else rows[e]
  }

  /** The selected drafts of a campaign. */
  function SelectedDrafts(rows: Rows, campaign: int): set<int> {
    set e | e in rows && rows[e].campaign == campaign && rows[e].status == Draft && rows[e].selected
  }

  /** Queueing adds the selected drafts to the queue and takes them from the drafts. */
  lemma QueueGrowsBySelected(rows: Rows, campaign: int)
    ensures var after := QueuedSelected(rows, campaign);
            && WithStatus(after, campaign, Queued) == WithStatus(rows, campaign, Queued) + SelectedDrafts(rows, campaign)
            && |WithStatus(after, campaign, Queued)| == |WithStatus(rows, campaign, Queued)| + |SelectedDrafts(rows, campaign)|
            && WithStatus(after, campaign, Draft) == WithStatus(rows, campaign, Draft) - SelectedDrafts(rows, campaign)
            && SelectedDrafts(after, campaign) == {}
  {
    assert WithStatus(rows, campaign, Queued) !! SelectedDrafts(rows, campaign);
  }

  /** Cancelling empties the queue into the failed rows. */
  lemma CancelEmptiesQueue(rows: Rows, campaign: int)
    ensures var after := CancelledQueued(rows, campaign);
            && WithStatus(after, campaign, Queued) == {}
            && WithStatus(after, campaign, Failed) == WithStatus(rows, campaign, Failed) + WithStatus(rows, campaign, Queued)
            && |WithStatus(after, campaign, Failed)| == |WithStatus(rows, campaign, Failed)| + |WithStatus(rows, campaign, Queued)|
  {
    assert WithStatus(rows, campaign, Failed) !! WithStatus(rows, campaign, Queued);
  }

  function SelectionSet(rows: Rows, e: int, selected: bool): Rows {
    if e !in rows || rows[e].status !in {Draft, Queued} then rows
    else if rows[e].status == Queued && !selected then rows[e := rows[e].(selected := false, status := Draft)]
    else rows[e := rows[e].(selected := selected)]
  }

  function AllSelectionSet(rows: Rows, campaign: int, selected: bool): Rows {
    map e | e in rows ::
      if rows[e].campaign == campaign && rows[e].status == Draft then rows[e].(selected := selected)
      else if rows[e].campaign == campaign && rows[e].status == Queued && !selected
      then rows[e].(selected := false, status := Draft)
      else rows[e]
  }

  /** A selection reaches drafts and queued rows only, and a deselected row is a draft; selecting all reaches the campaign's rows only. */
  lemma SelectionReaches(rows: Rows, e: int, selected: bool)
    requires e in rows
    ensures var row, one, all := rows[e], SelectionSet(rows, e, selected), AllSelectionSet(rows, rows[e].campaign, selected);
            && one.Keys == rows.Keys && all.Keys == rows.Keys
            && (row.status.Draft? ==> one[e] == row.(selected := selected) && all[e] == row.(selected := selected))
            && (row.status.Queued? && selected ==> one[e] == row.(selected := true) && all[e] == row)
            && (row.status.Queued? && !selected ==> one[e] == row.(selected := false, status := Draft) && all[e] == one[e])
            && (!row.status.Draft? && !row.status.Queued? ==> one[e] == row && all[e] == row)
            && (forall x :: x in rows && x != e ==> one[x] == rows[x])
            && (forall x :: x in rows && rows[x].campaign != row.campaign ==> all[x] == rows[x])
  {
  }

  function DraftDeleted(rows: Rows, e: int): Rows {
    if e in rows && rows[e].status == Draft then rows - {e} else rows
  }

  /** The tables of the outreach mixin, updated in place. Each method is one committed session. */
  class OutreachDb {
    var rows: Rows
    var creds: Credentials
    var blacklist: set<int>      // rows whose recipient has been blacklisted

    constructor (rows: Rows, creds: Credentials)
      ensures this.rows == rows && this.creds == creds && blacklist == {}
    {
      this.rows := rows;
      this.creds := creds;
      blacklist := {};
    }

    /** Claims the QUEUED row of least id, or reports that there is none. */
    method ClaimNextQueuedEmail(campaign: int, now: int) returns (claimed: Option<int>)
      modifies `rows
      ensures claimed.None? <==> WithStatus(old(rows), campaign, Queued) == {}
      ensures claimed.None? ==> rows == old(rows)
      ensures claimed.Some? ==>
                && claimed.value in WithStatus(old(rows), campaign, Queued)
                && (forall e :: e in WithStatus(old(rows), campaign, Queued) ==> claimed.value <= e)
                && rows == Claimed(old(rows), claimed.value, now)
      ensures claimed.None? <==> forall e :: e in old(rows) ==> old(rows)[e].campaign != campaign || !old(rows)[e].status.Queued?
      ensures claimed.Some? ==>
                && claimed.value in old(rows)
                && old(rows)[claimed.value].campaign == campaign && old(rows)[claimed.value].status.Queued?
                && (forall e :: e in old(rows) && old(rows)[e].campaign == campaign && old(rows)[e].status.Queued? ==> claimed.value <= e)
                && rows[claimed.value] == old(rows)[claimed.value].(status := Sending, sendingSince := Some(now))
    {
      var queued := WithStatus(rows, campaign, Queued);
      assert forall e :: e in queued <==> e in rows && rows[e].campaign == campaign && rows[e].status.Queued?;
      if queued == {} {
        return None;
      }
      var e := Least(queued);
      rows := rows[e := rows[e].(status := Sending, sendingSince := Some(now))];
      claimed := Some(e);
    }

    /** Requeues every row left SENDING past the threshold and reports which ones. */
    method RecoverStuckSending(now: int) returns (ids: set<int>)
      modifies `rows
      ensures ids == StuckRows(old(rows), now)
      ensures rows == Recovered(old(rows), now)
      ensures forall e :: e in ids <==>
                e in old(rows) && old(rows)[e].status.Sending? && old(rows)[e].sendingSince.Some?
                && now - old(rows)[e].sendingSince.value > 600_000_000
      ensures rows.Keys == old(rows).Keys
      ensures forall e :: e in rows ==>
                rows[e] == if e in ids then old(rows)[e].(status := Queued, sendingSince := None) else old(rows)[e]
    {
      ids := StuckRows(rows, now);
      var left := ids;
      ghost var before := rows;
      while left != {}
        invariant left <= ids && rows.Keys == before.Keys
        invariant forall e :: e in rows ==>
                    rows[e] == if e in ids - left then before[e].(status := Queued, sendingSince := None) else before[e]
        decreases left
      {
        var e := Least(left);
        rows := rows[e := rows[e].(status := Queued, sendingSince := None)];
        left := left - {e};
      }
      ghost var after := Recovered(before, now);
      assert rows.Keys == after.Keys;
      forall e | e in rows ensures rows[e] == after[e] {
        assert e in ids <==> Stuck(before[e], now);
      }
      assert rows == after;
    }

    method MarkEmailSent(e: int, cred: int, now: int)
      modifies `rows
      ensures rows == MarkedSent(old(rows), e, cred, now)
      ensures e in old(rows) ==>
                rows == old(rows)[e := old(rows)[e].(status := Sent, sentAt := Some(now), credential := Some(cred))]
      ensures e !in old(rows) ==> rows == old(rows)
    {
      if e in rows {
        rows := rows[e := rows[e].(status := Sent, sentAt := Some(now), credential := Some(cred))];
      }
    }

    /** The handlers of one failed send: row and credential after the error. */
    method HandleSendError(e: int, cred: int, error: SendError, now: int)
      modifies this
      ensures rows == Settled(old(rows), e, cred, error)
      ensures creds == Penalised(old(creds), cred, error, now)
      ensures blacklist == old(blacklist) + if HardBounce(error) then {e} else {}
      ensures e in old(rows) && TemporaryReply(error) ==>
                (rows[e].status == Queued <==> !error.RecipientsRefused?)
                && (rows[e].status == Failed <==> error.RecipientsRefused?)
      ensures e in old(rows) ==>
                && (rows[e].status == Queued <==>
                      error.AuthError? || error.Network? || (error.Response? && error.code in {421, 450, 451}))
                && (rows[e].status == Failed <==>
                      error.Unexpected? || error.RecipientsRefused? || (error.Response? && error.code !in {421, 450, 451}))
                && (rows[e].status == Queued ==> rows[e].sendingSince == None && rows[e].credential == old(rows)[e].credential)
                && (rows[e].status == Failed ==> rows[e].credential == Some(cred))
      ensures rows.Keys == old(rows).Keys && forall x :: x in rows && x != e ==> rows[x] == old(rows)[x]
      ensures cred in old(creds) ==>
                && creds[cred].active == (old(creds)[cred].active && !error.AuthError?)
                && creds[cred].dailyLimit == old(creds)[cred].dailyLimit
                && creds[cred].cooldownUntil == (
                     if error.Network? then Some(now + 900_000_000)
                     else if error.Response? && error.code in {421, 450, 451} then Some(now + 3_600_000_000)
                     else old(creds)[cred].cooldownUntil)
      ensures creds.Keys == old(creds).Keys && forall c :: c in creds && c != cred ==> creds[c] == old(creds)[c]
      ensures forall x :: x in blacklist <==>
                x in old(blacklist) || (x == e && (error.Response? || error.RecipientsRefused?) && error.code in {550, 553})
    {
      if (error.Response? || error.RecipientsRefused?) && error.code in {550, 553} {
        blacklist := blacklist + {e};
      }
      if cred in creds {
        match error {
          case AuthError =>
            creds := creds[cred := creds[cred].(active := false)];
          case Network =>
            creds := creds[cred := creds[cred].(cooldownUntil := Some(now + NETWORK_COOLDOWN))];
          case Response(code) =>
            if code in {421, 450, 451} {
              creds := creds[cred := creds[cred].(cooldownUntil := Some(now + RATE_LIMIT_COOLDOWN))];
            }
          case _ =>
        }
      }
      if e in rows {
        if error.AuthError? || error.Network? || (error.Response? && error.code in {421, 450, 451}) {
          rows := rows[e := rows[e].(status := Queued, sendingSince := None)];
        } else {
          rows := rows[e := rows[e].(status := Failed, credential := Some(cred))];
        }
      }
    }

    /** Only selected drafts of the campaign change, all of them are queued, and the count is the growth of the queue. */
    method QueueCampaignEmails(campaign: int) returns (count: nat)
      modifies `rows
      ensures rows == QueuedSelected(old(rows), campaign)
      ensures SelectedDrafts(rows, campaign) == {}
      ensures forall e :: e in rows && rows[e] != old(rows)[e] ==>
                e in SelectedDrafts(old(rows), campaign) && rows[e] == old(rows)[e].(status := Queued)
      ensures rows.Keys == old(rows).Keys
      ensures forall e :: e in rows ==>
                (rows[e].status.Queued? <==>
                   old(rows)[e].status.Queued?
                   || (old(rows)[e].campaign == campaign && old(rows)[e].status.Draft? && old(rows)[e].selected))
      ensures count == |WithStatus(rows, campaign, Queued)| - |WithStatus(old(rows), campaign, Queued)|
    {
      QueueGrowsBySelected(rows, campaign);
      count := |SelectedDrafts(rows, campaign)|;
      rows := map e | e in rows ::
        if rows[e].campaign == campaign && rows[e].status == Draft && rows[e].selected
        then rows[e].(status := Queued) else rows[e];
    }

    /** Only queued rows of the campaign change, none is left queued, and the count is the growth of the failed rows. */
    method CancelRemainingQueued(campaign: int) returns (count: nat)
      modifies `rows
      ensures rows == CancelledQueued(old(rows), campaign)
      ensures WithStatus(rows, campaign, Queued) == {}
      ensures forall e :: e in rows && rows[e] != old(rows)[e] ==>
                e in WithStatus(old(rows), campaign, Queued) && rows[e] == old(rows)[e].(status := Failed)
      ensures rows.Keys == old(rows).Keys
      ensures forall e :: e in rows ==>
                (rows[e].status.Failed? <==>
                   old(rows)[e].status.Failed? || (old(rows)[e].campaign == campaign && old(rows)[e].status.Queued?))
      ensures count == |WithStatus(rows, campaign, Failed)| - |WithStatus(old(rows), campaign, Failed)|
    {
      CancelEmptiesQueue(rows, campaign);
      count := |WithStatus(rows, campaign, Queued)|;
      rows := map e | e in rows ::
        if rows[e].campaign == campaign && rows[e].status == Queued then rows[e].(status := Failed) else rows[e];
    }

    /** The pool as a list without repetitions, in the order the query happens to return it. */
    method ResolveCredentialPool(assignment: set<int>, now: int) returns (pool: seq<int>)
      ensures forall c :: c in pool <==> c in Pool(rows, creds, assignment, now)
      ensures forall i, j :: 0 <= i < j < |pool| ==> pool[i] != pool[j]
      ensures forall c :: c in pool <==>
                && c in creds && (assignment == {} || c in assignment) && creds[c].active
                && (creds[c].cooldownUntil.Some? ==> creds[c].cooldownUntil.value < now)
                && (creds[c].dailyLimit.Some? && creds[c].dailyLimit.value > 0 ==>
                      |SentSince(rows, c, now - now % 86_400_000_000)| < creds[c].dailyLimit.value)
    {
      pool := [];
      var left := creds.Keys;
      forall c ensures SentToday(rows, c, now) == SentSince(rows, c, now - now % 86_400_000_000) {
        TodayIsSinceMidnight(rows, c, now);
      }
      while left != {}
        invariant left <= creds.Keys
        invariant forall c :: c in pool <==> c in Pool(rows, creds, assignment, now) && c !in left
        invariant forall i, j :: 0 <= i < j < |pool| ==> pool[i] != pool[j]
        decreases left
      {
        var c := Least(left);
        if (assignment == {} || c in assignment) && Active(creds[c], now) && UnderLimit(rows, creds, c, now) {
          pool := pool + [c];
        }
        left := left - {c};
      }
    }
  }

  /** A limit of one, used at eight in the morning: the pool is empty at nine and full again at midnight. */
  method OnePerDay() returns (atNine: set<int>, nextDay: set<int>)
    ensures atNine == {} && nextDay == {0}
  {
    var hour := 3_600_000_000;
    var db := new OutreachDb(map[1 := EmailRow(0, true, Sending, Some(0), None, None)], map[0 := Credential(true, None, Some(1))]);
    db.MarkEmailSent(1, 0, 8 * hour);
    CountsSinceMidnight(map[1 := EmailRow(0, true, Sending, Some(0), None, None)], 1, 0, 8 * hour, 9 * hour);
    assert SentToday(db.rows, 0, 9 * hour) == {1} && SentToday(db.rows, 0, 24 * hour) == {};
    var pool := db.ResolveCredentialPool({}, 9 * hour);
    atNine := set c | c in pool;
    pool := db.ResolveCredentialPool({}, 24 * hour);
    nextDay := set c | c in pool;
  }

  /** A hard bounce fails the row and leaves the credential alone. */
  method HardBounceIsFinal() returns (status: EmailStatus, credential: Credential)
    ensures status == Failed && credential == Credential(true, None, None)
  {
    var db := new OutreachDb(map[1 := EmailRow(0, true, Sending, Some(0), None, None)], map[0 := Credential(true, None, None)]);
    db.HandleSendError(1, 0, Response(550), 0);
    status, credential := db.rows[1].status, db.creds[0];
  }

  /** The same reply code, once as a plain response and once as a refused recipient: one row is retried, the other is lost. */
  method TemporaryRefusalIsFinal() returns (answered: EmailStatus, refused: EmailStatus)
    ensures answered == Queued && refused == Failed
  {
    var row := EmailRow(0, true, Sending, Some(0), None, None);
    var db := new OutreachDb(map[1 := row, 2 := row], map[0 := Credential(true, None, None)]);
    db.HandleSendError(1, 0, Response(450), 0);
    db.HandleSendError(2, 0, RecipientsRefused(450), 0);
    answered, refused := db.rows[1].status, db.rows[2].status;
  }
}
