/**
The durable job table of crates/db-worker/src/jobs.rs: one atomic step for each SQL statement, with its
WHERE guard, and what every run of such steps keeps. Whoever calls, in whatever order, with whatever
stale records in hand, is just another sequence of steps.
*/
module Jobs {
  import opened Common

  type Id = nat
  type Instant = int
  type Window = nat

  datatype JobState = Queued | Running | Succeeded | Failed | Cancelled

  datatype JobOutcome = DidSucceed | DidFail | WasCancelled | WasSkipped

  /** What a durable effect committed; the failure text is already sanitized. */
  datatype CommitOutcome = CommittedSuccess | CommittedFailure(reason: string)

  /** The columns a schedule owns. */
  datatype Config = Config(kind: string, cadence: string, maxAttempts: nat, backoffSeconds: nat, multiplierBps: nat,
                           enabled: bool, optIn: bool, payload: Option<string>)

  datatype Row = Row(
    config: Config,
    nextDue: Option<Instant>,
    state: JobState,
    attempts: nat,
    lastRun: Option<Instant>,
    lastOutcome: Option<JobOutcome>,
    lastError: Option<string>,
    lastWindow: Option<Window>,
    cancelRequested: bool,
    committedAt: Option<Instant>,
    committedFailed: Option<bool>)         // committed_outcome: Some(true) is 'failed'

  type Table = map<Id, Row>

  datatype Op =
    | MarkCommitted(id: Id, at: Instant, outcome: CommitOutcome)
    | Schedule(id: Id, config: Config, due: Instant)
    | Reconfigure(id: Id, config: Config, due: Instant)
    | CancelJob(id: Id)
    | DeleteJob(id: Id)
    | Recover(now: Instant, schedules: map<string, Option<Instant>>)  // cadence to next due time, if it parses
    | Claim(id: Id, attempt: nat, startedAt: Instant, window: Window)
    | FinishSuccess(id: Id, nextDue: Option<Instant>)
    | FinishCommitted(id: Id, nextDue: Option<Instant>)
    | FinishFailure(id: Id, reason: string, retryAt: Option<Instant>)
    | FinishCancelled(id: Id, reason: string)
    | FinishSkipped(id: Id)

  // ---------------------------------------------------------------------------------------------
  // One row: the guard and the SET list of each statement
  // ---------------------------------------------------------------------------------------------

  predicate Guard(op: Op, row: Row)
    requires !op.Recover?
  {
    match op
    case MarkCommitted(_, _, _) => row.state == Running
    case Schedule(_, _, _) => true
    case Reconfigure(_, _, _) => row.state != Running
    case CancelJob(_) => row.state !in {Failed, Cancelled}
    case DeleteJob(_) => row.state != Running
    case Claim(_, attempt, _, window) =>
      row.state in {Queued, Succeeded} && row.attempts == attempt - 1 && row.lastWindow != Some(window)
    case FinishSuccess(_, _) => row.state == Running && !row.cancelRequested
    case FinishCommitted(_, _) => row.state == Running
    case FinishFailure(_, _, _) =>
      row.state in {Running, Queued, Succeeded} && (!row.cancelRequested || row.committedAt.Some?)
    case FinishCancelled(_, _) => row.state == Running
    case FinishSkipped(_) => row.state == Running && !row.cancelRequested
  }

  function Unmarked(row: Row): Row { row.(committedAt := None, committedFailed := None) }

  function Settled(row: Row): Row { Unmarked(row).(cancelRequested := false) }

  function Success(row: Row, nextDue: Option<Instant>): Row {
    Settled(row).(state := Succeeded, attempts := 0, nextDue := nextDue, lastOutcome := Some(DidSucceed),
                  lastError := None)
  }

  function Change(op: Op, row: Row): Row
    requires !op.Recover? && !op.DeleteJob?
  {
    match op
    case MarkCommitted(_, at, outcome) =>
      row.(committedAt := if row.committedAt.Some? then row.committedAt else Some(at),
           committedFailed := if row.committedFailed.Some? then row.committedFailed
                              else Some(outcome.CommittedFailure?),
           lastError := if row.committedFailed.None? && outcome.CommittedFailure? then Some(outcome.reason)
                        else row.lastError)
    case Schedule(_, config, due) => row.(config := config, nextDue := Some(due))
    case Reconfigure(_, config, due) =>
      row.(config := config, nextDue := Some(due), state := Queued, attempts := 0, lastOutcome := None,
           lastError := None, lastWindow := None, cancelRequested := false)
    case CancelJob(_) =>
      if row.state == Running then row.(cancelRequested := true)
      else row.(state := Cancelled, lastOutcome := Some(WasCancelled), lastError := Some("cancelled by user"),
                cancelRequested := true)
    case Claim(_, attempt, startedAt, window) =>
      Settled(row).(state := Running, attempts := attempt, lastRun := Some(startedAt), lastWindow := Some(window))
    case FinishSuccess(_, nextDue) => Success(row, nextDue)
    case FinishCommitted(_, nextDue) => Success(row, nextDue)
    case FinishFailure(_, reason, retryAt) =>
      Settled(row).(state := if retryAt.Some? then Queued else Failed,
                    nextDue := if retryAt.Some? then retryAt else row.nextDue,
                    lastOutcome := Some(DidFail), lastError := Some(reason))
    case FinishCancelled(_, reason) =>
      Unmarked(row).(state := Cancelled, lastOutcome := Some(WasCancelled), lastError := Some(reason))
    case FinishSkipped(_) => Settled(row).(state := Queued, lastOutcome := Some(WasSkipped))
  }

  /** The row a schedule inserts. */
  function NewRow(config: Config, due: Instant): Row {
    Row(config, Some(due), Queued, 0, None, None, None, None, false, None, None)
  }

  /** What recovery makes of one row. */
  function RecoverRow(row: Row, now: Instant, schedules: map<string, Option<Instant>>): Row {
    if row.state != Running then row
    else if row.cancelRequested && row.committedAt.Some? then
      if row.committedFailed == Some(true) then
        Settled(row).(state := Failed, lastOutcome := Some(DidFail),
                      lastError := if row.lastError.Some? then row.lastError
                                   else Some("the run failed before recovery"))
      else Success(row, if row.config.cadence in schedules then schedules[row.config.cadence] else None)
    else if row.cancelRequested then
      Settled(row).(state := Cancelled, lastOutcome := Some(WasCancelled),
                    lastError := Some("cancelled before recovery"))
    else
      Settled(row).(state := Queued,
                    nextDue := if row.nextDue.None? || row.nextDue.value > now then Some(now) else row.nextDue)
  }

  // ---------------------------------------------------------------------------------------------
  // The table
  // ---------------------------------------------------------------------------------------------

  function Step(t: Table, op: Op): Table {
    if op.Recover? then map id | id in t :: RecoverRow(t[id], op.now, op.schedules)
    else if op.id !in t then
      if op.Schedule? || op.Reconfigure? then t[op.id := NewRow(op.config, op.due)] else t
    else if !Guard(op, t[op.id]) then t
    else if op.DeleteJob? then t - {op.id}
    else t[op.id := Change(op, t[op.id])]
  }

  /** The statement finds its row. */
  predicate Hits(t: Table, op: Op, id: Id) {
    !op.Recover? && op.id == id && id in t && Guard(op, t[id])
  }

  datatype Run = Run(tables: seq<Table>, ops: seq<Op>)

  ghost predicate IsRun(r: Run) {
    && |r.tables| == |r.ops| + 1
    && r.tables[0] == map[]
    && forall i :: 0 <= i < |r.ops| ==> r.tables[i + 1] == Step(r.tables[i], r.ops[i])
  }

  // ---------------------------------------------------------------------------------------------
  // What every row of every run keeps
  // ---------------------------------------------------------------------------------------------

  predicate RowOk(row: Row) {
    && (row.committedAt.Some? <==> row.committedFailed.Some?)
    && (row.committedAt.Some? ==> row.state == Running)
    && (row.state in {Queued, Succeeded, Failed} ==> !row.cancelRequested)
    && (row.state == Succeeded ==> row.attempts == 0)
    && (row.state == Running ==> row.lastWindow.Some? && row.attempts > 0)
  }

  lemma ChangeKeepsRowOk(op: Op, row: Row)
    requires RowOk(row) && !op.Recover? && !op.DeleteJob? && Guard(op, row)
    ensures RowOk(Change(op, row))
  {
  }

  lemma RecoveryKeepsRowOk(row: Row, now: Instant, schedules: map<string, Option<Instant>>)
    requires RowOk(row)
    ensures RowOk(RecoverRow(row, now, schedules))
  {
  }

  lemma StepKeepsRowsOk(t: Table, op: Op)
    requires forall id :: id in t ==> RowOk(t[id])
    ensures forall id :: id in Step(t, op) ==> RowOk(Step(t, op)[id])
  {
    if op.Recover? {
      forall id | id in t ensures RowOk(RecoverRow(t[id], op.now, op.schedules)) {
        RecoveryKeepsRowOk(t[id], op.now, op.schedules);
      }
    } else if op.id in t && Guard(op, t[op.id]) && !op.DeleteJob? {
      ChangeKeepsRowOk(op, t[op.id]);
    }
  }

  lemma {:induction false} RowsOk(r: Run, n: nat)
    requires IsRun(r) && n <= |r.ops|
    ensures forall id :: id in r.tables[n] ==> RowOk(r.tables[n][id])
  {
    if n > 0 {
      RowsOk(r, n - 1);
      StepKeepsRowsOk(r.tables[n - 1], r.ops[n - 1]);
      assert r.tables[n] == Step(r.tables[n - 1], r.ops[n - 1]);
    }
  }

  // ---------------------------------------------------------------------------------------------
  // The commit marker
  // ---------------------------------------------------------------------------------------------

  /** Step `j` claims the row. */
  ghost predicate ClaimsAt(r: Run, j: int, id: Id)
    requires IsRun(r) && 0 <= j < |r.ops|
  {
    r.ops[j].Claim? && Hits(r.tables[j], r.ops[j], id)
  }

  ghost predicate RunningThroughout(r: Run, j: int, n: int, id: Id)
    requires IsRun(r) && 0 <= j <= n <= |r.ops|
  {
    forall k :: j < k <= n ==> id in r.tables[k] && r.tables[k][id].state == Running
  }

  ghost predicate MarksAt(r: Run, m: int, id: Id)
    requires IsRun(r) && 0 <= m < |r.ops|
  {
    r.ops[m].MarkCommitted? && r.ops[m].id == id
  }

  /** The claim at `j` is the row's latest, and it has been running ever since. */
  ghost predicate LatestClaim(r: Run, j: int, n: int, id: Id)
    requires IsRun(r) && n <= |r.ops|
  {
    0 <= j < n && ClaimsAt(r, j, id) && RunningThroughout(r, j, n, id)
  }

  lemma {:induction false} RunningSinceItsClaim(r: Run, n: nat, id: Id) returns (j: nat)
    requires IsRun(r) && n <= |r.ops| && id in r.tables[n] && r.tables[n][id].state == Running
    ensures LatestClaim(r, j, n, id)
    ensures forall k :: j < k < n ==> !ClaimsAt(r, k, id)
  {
    assert n > 0;
    assert r.tables[n] == Step(r.tables[n - 1], r.ops[n - 1]);
    if id in r.tables[n - 1] && r.tables[n - 1][id].state == Running {
      j := RunningSinceItsClaim(r, n - 1, id);
      assert !ClaimsAt(r, n - 1, id);
    } else {
      j := n - 1;
    }
  }

  /** What the first mark `outcome` at `at` writes, and nothing since has changed. */
  predicate Carries(row: Row, at: Instant, outcome: CommitOutcome) {
    && row.committedAt == Some(at)
    && row.committedFailed == Some(outcome.CommittedFailure?)
    && (outcome.CommittedFailure? ==> row.lastError == Some(outcome.reason))
  }

  /** Step `m` is the first mark of the run that the claim at `j` began. */
  ghost predicate FirstMark(r: Run, j: int, m: int, n: int, id: Id)
    requires IsRun(r) && n <= |r.ops|
  {
    && 0 <= j < m < n && MarksAt(r, m, id)
    && (forall k :: j < k < m ==> !MarksAt(r, k, id))
  }

  /**
  A running row carries a marker exactly when its run was marked since its latest claim, and then it is
  the first mark's: its instant, its outcome, and for a failure its reason as `last_error`.
  */
  lemma {:induction false} MarkerIsTheFirstMark(r: Run, j: nat, n: nat, id: Id)
    requires IsRun(r) && n <= |r.ops| && LatestClaim(r, j, n, id)
    ensures r.tables[n][id].committedAt.None? <==> forall k :: j < k < n ==> !MarksAt(r, k, id)
    ensures forall m :: FirstMark(r, j, m, n, id) ==> Carries(r.tables[n][id], r.ops[m].at, r.ops[m].outcome)
  {
    assert r.tables[n] == Step(r.tables[n - 1], r.ops[n - 1]);
    RowsOk(r, n - 1);
    if n == j + 1 {
      assert r.tables[n][id].committedAt.None?;
    } else {
      assert RunningThroughout(r, j, n - 1, id);
      MarkerIsTheFirstMark(r, j, n - 1, id);
      assert r.tables[n][id].committedAt.None? <==> r.tables[n - 1][id].committedAt.None? && !MarksAt(r, n - 1, id);
      forall m | FirstMark(r, j, m, n, id) ensures Carries(r.tables[n][id], r.ops[m].at, r.ops[m].outcome) {
        if m < n - 1 {
          assert FirstMark(r, j, m, n - 1, id);
        } else {
          assert MarksAt(r, m, id);
        }
      }
    }
  }

  /** How recovery settles a row that was running when the process died. */
  predicate SettledByRecovery(row: Row, after: Row, marked: bool, outcome: CommitOutcome) {
    if !row.cancelRequested then after.state == Queued
    else if !marked then after.state == Cancelled && after.lastOutcome == Some(WasCancelled)
    else if outcome.CommittedFailure? then
      after.state == Failed && after.lastOutcome == Some(DidFail) && after.lastError == Some(outcome.reason)
    else after.state == Succeeded && after.lastOutcome == Some(DidSucceed) && after.lastError.None?
  }

  /**
  Recovery leaves nothing running. A row with a cancel request is recorded cancelled exactly when its
  run was never marked, and otherwise as the outcome of the run's first mark, a failure with its reason.
  */
  lemma RecoveryTellsWhatCommitted(r: Run, n: nat, id: Id)
    requires IsRun(r) && n < |r.ops| && r.ops[n].Recover? && id in r.tables[n]
    ensures id in r.tables[n + 1] && r.tables[n + 1][id].state != Running && r.tables[n + 1][id].committedAt.None?
    ensures r.tables[n][id].state != Running ==> r.tables[n + 1][id] == r.tables[n][id]
    ensures r.tables[n][id].state == Running ==> exists j ::
      LatestClaim(r, j, n, id)
      && ((forall k :: j < k < n ==> !MarksAt(r, k, id)) ==>
          SettledByRecovery(r.tables[n][id], r.tables[n + 1][id], false, CommittedSuccess))
      && (forall m :: FirstMark(r, j, m, n, id) ==>
          SettledByRecovery(r.tables[n][id], r.tables[n + 1][id], true, r.ops[m].outcome))
  {
    RowsOk(r, n);
    assert r.tables[n + 1] == Step(r.tables[n], r.ops[n]);
    if r.tables[n][id].state == Running {
      var j := RunningSinceItsClaim(r, n, id);
      MarkerIsTheFirstMark(r, j, n, id);
      assert forall m :: FirstMark(r, j, m, n, id) ==> r.tables[n][id].committedAt.Some?;
    }
  }

  // ---------------------------------------------------------------------------------------------
  // Claims, windows and attempts
  // ---------------------------------------------------------------------------------------------

  /** The steps that make a row forget its window: reconfiguring or deleting it. */
  predicate Renews(op: Op, id: Id) {
    (op.Reconfigure? || op.DeleteJob?) && op.id == id
  }

  lemma {:induction false} WindowIsRemembered(r: Run, i: nat, k: nat, id: Id)
    requires IsRun(r) && i < k <= |r.ops| && ClaimsAt(r, i, id)
    requires forall m :: i < m < k ==> !Renews(r.ops[m], id)
    requires forall m :: i < m < k && ClaimsAt(r, m, id) ==> r.ops[m].window == r.ops[i].window
    ensures id in r.tables[k] && r.tables[k][id].lastWindow == Some(r.ops[i].window)
  {
    assert r.tables[k] == Step(r.tables[k - 1], r.ops[k - 1]);
    if k > i + 1 {
      WindowIsRemembered(r, i, k - 1, id);
      assert !Renews(r.ops[k - 1], id);
      if r.ops[k - 1].Claim? && r.ops[k - 1].id == id {
        assert ClaimsAt(r, k - 1, id) <==> Hits(r.tables[k - 1], r.ops[k - 1], id);
      }
    }
  }

  /**
  A row is claimed twice in one unlock window only if another window claimed it in between, or it was
  reconfigured or deleted, whatever records the claimants hold.
  */
  lemma ClaimedOncePerWindow(r: Run, i: nat, k: nat, id: Id)
    requires IsRun(r) && i < k < |r.ops| && ClaimsAt(r, i, id) && ClaimsAt(r, k, id)
    requires r.ops[i].window == r.ops[k].window
    requires forall m :: i < m < k ==> !Renews(r.ops[m], id)
    ensures exists m :: i < m < k && ClaimsAt(r, m, id) && r.ops[m].window != r.ops[i].window
  {
    if forall m :: i < m < k && ClaimsAt(r, m, id) ==> r.ops[m].window == r.ops[i].window {
      WindowIsRemembered(r, i, k, id);
      assert false;
    }
  }

  /** Once a claim of another window has taken the row, no claim of the first window does. */
  ghost predicate WindowsNeverReused(r: Run, id: Id)
    requires IsRun(r)
  {
    forall a, b, c | 0 <= a < b < c < |r.ops| && ClaimsAt(r, a, id) && ClaimsAt(r, b, id) && ClaimsAt(r, c, id) ::
      r.ops[a].window == r.ops[c].window ==> r.ops[b].window == r.ops[a].window
  }

  /** With windows never reused, a row that is not reconfigured or deleted is claimed at most once in a window. */
  lemma AtMostOneClaimPerWindow(r: Run, i: nat, k: nat, id: Id)
    requires IsRun(r) && WindowsNeverReused(r, id)
    requires i < k < |r.ops| && ClaimsAt(r, i, id) && ClaimsAt(r, k, id)
    requires forall m :: i < m < k ==> !Renews(r.ops[m], id)
    ensures r.ops[i].window != r.ops[k].window
  {
    if r.ops[i].window == r.ops[k].window {
      ClaimedOncePerWindow(r, i, k, id);
    }
  }

  /** After step `k` the row starts counting again: it is new, reconfigured, or has just succeeded. */
  ghost predicate ResetsAt(r: Run, k: int, id: Id)
    requires IsRun(r) && 0 <= k < |r.ops|
  {
    || id !in r.tables[k]
    || id !in r.tables[k + 1]
    || (r.ops[k].Reconfigure? && Hits(r.tables[k], r.ops[k], id))
    || (r.tables[k + 1][id].state == Succeeded && r.tables[k][id].state != Succeeded)
  }

  /** How often the row was claimed since its last reset. */
  ghost function ClaimsSinceReset(r: Run, id: Id, n: nat): nat
    requires IsRun(r) && n <= |r.ops|
  {
    if n == 0 || ResetsAt(r, n - 1, id) then 0
    else ClaimsSinceReset(r, id, n - 1) + (if ClaimsAt(r, n - 1, id) then 1 else 0)
  }

  /** A statement leaves the attempts, resets them, or adds one by a claim. */
  lemma AttemptsAfter(t: Table, op: Op, id: Id)
    requires id in t && id in Step(t, op) && RowOk(t[id]) && RowOk(Step(t, op)[id])
    ensures Step(t, op)[id].attempts ==
      if op.Reconfigure? && Hits(t, op, id) then 0
      else if Step(t, op)[id].state == Succeeded && t[id].state != Succeeded then 0
      else t[id].attempts + (if op.Claim? && Hits(t, op, id) then 1 else 0)
  {
  }

  lemma {:induction false} AttemptsCountClaims(r: Run, id: Id, n: nat)
    requires IsRun(r) && n <= |r.ops| && id in r.tables[n]
    ensures r.tables[n][id].attempts == ClaimsSinceReset(r, id, n)
  {
    if n > 0 {
      var t, op := r.tables[n - 1], r.ops[n - 1];
      assert r.tables[n] == Step(t, op);
      RowsOk(r, n);
      if id in t {
        AttemptsCountClaims(r, id, n - 1);
        RowsOk(r, n - 1);
        AttemptsAfter(t, op, id);
      }
    }
  }

  /** A failed or cancelled row stays as it is recorded until it is reconfigured or deleted. */
  lemma {:induction false} TerminalUntilRenewed(r: Run, i: nat, n: nat, id: Id)
    requires IsRun(r) && i <= n <= |r.ops|
    requires id in r.tables[i] && r.tables[i][id].state in {Failed, Cancelled}
    requires forall m :: i <= m < n ==> !Renews(r.ops[m], id)
    ensures id in r.tables[n]
    ensures r.tables[n][id].state == r.tables[i][id].state
    ensures r.tables[n][id].lastOutcome == r.tables[i][id].lastOutcome
      && r.tables[n][id].lastError == r.tables[i][id].lastError
    ensures r.tables[n][id].attempts == r.tables[i][id].attempts
  {
    if i < n {
      TerminalUntilRenewed(r, i, n - 1, id);
      assert r.tables[n] == Step(r.tables[n - 1], r.ops[n - 1]);
      assert !Renews(r.ops[n - 1], id);
    }
  }
}
