/**
What each statement of crates/db-worker/src/jobs.rs leaves in the row it finds, in every run: the state, the due
time, the attempts and the record, and with them whether and when the job can be claimed again.
*/
module JobEffects {
  import opened Common
  import opened Jobs

  /** Step `n` is a statement for `id` whose WHERE clause finds the row. */
  ghost predicate FindsAt(r: Run, n: nat, id: Id)
    requires IsRun(r) && n < |r.ops|
  {
    !r.ops[n].Recover? && Hits(r.tables[n], r.ops[n], id)
  }

  ghost predicate Present(r: Run, n: nat, id: Id)
    requires IsRun(r) && n <= |r.ops|
  {
    id in r.tables[n]
  }

  function RowAt(r: Run, n: nat, id: Id): Row
    requires n < |r.tables| && id in r.tables[n]
  {
    r.tables[n][id]
  }

  // ---------------------------------------------------------------------------------------------
  // Which rows a statement finds, and which it leaves alone
  // ---------------------------------------------------------------------------------------------

  lemma StatementsFind(r: Run, n: nat, id: Id)
    requires IsRun(r) && n < |r.ops| && id in r.tables[n] && !r.ops[n].Recover? && r.ops[n].id == id
    ensures var op, row := r.ops[n], RowAt(r, n, id);
      FindsAt(r, n, id) <==>
        match op
        case MarkCommitted(_, _, _) => row.state == Running
        case Schedule(_, _, _) => true
        case Reconfigure(_, _, _) => row.state != Running
        case CancelJob(_) => row.state == Queued || row.state == Running || row.state == Succeeded
        case DeleteJob(_) => row.state != Running
        case Claim(_, attempt, _, window) =>
          && (row.state == Queued || row.state == Succeeded) && row.attempts + 1 == attempt
          && row.lastWindow != Some(window)
        case FinishSuccess(_, _) => row.state == Running && !row.cancelRequested
        case FinishCommitted(_, _) => row.state == Running
        case FinishFailure(_, _, _) =>
          && (row.state == Running || row.state == Queued || row.state == Succeeded)
          && (!row.cancelRequested || row.committedAt.Some?)
        case FinishCancelled(_, _) => row.state == Running
        case FinishSkipped(_) => row.state == Running && !row.cancelRequested
        case Recover(_, _) => false
  {
  }

  /** A statement changes at most the row it finds, and only scheduling or reconfiguring makes a new one. */
  lemma OthersAreLeftAlone(r: Run, n: nat, id: Id)
    requires IsRun(r) && n < |r.ops| && !r.ops[n].Recover? && !FindsAt(r, n, id)
    ensures id in r.tables[n] ==> id in r.tables[n + 1] && RowAt(r, n + 1, id) == RowAt(r, n, id)
    ensures id !in r.tables[n] ==> (id in r.tables[n + 1] <==>
      (r.ops[n].Schedule? || r.ops[n].Reconfigure?) && r.ops[n].id == id)
  {
    assert r.tables[n + 1] == Step(r.tables[n], r.ops[n]);
  }

  // ---------------------------------------------------------------------------------------------
  // What it leaves
  // ---------------------------------------------------------------------------------------------

  /** What the runner owns stays: the configuration, and when and in which window the row last ran. */
  predicate SameRun(before: Row, after: Row) {
    after.config == before.config && after.lastRun == before.lastRun && after.lastWindow == before.lastWindow
  }

  predicate Unmarked(row: Row) { row.committedAt.None? && row.committedFailed.None? }

  /** A failed run is queued for its retry time, or has failed for good with its due time as it was. */
  lemma FailureRetriesOrEnds(r: Run, n: nat, id: Id)
    requires IsRun(r) && n < |r.ops| && r.ops[n].FinishFailure? && FindsAt(r, n, id)
    ensures id in r.tables[n + 1]
    ensures var before, after, retryAt := RowAt(r, n, id), RowAt(r, n + 1, id), r.ops[n].retryAt;
      && (retryAt.Some? ==> after.state == Queued && after.nextDue == retryAt)
      && (retryAt.None? ==> after.state == Failed && after.nextDue == before.nextDue)
      && after.lastOutcome == Some(DidFail) && after.lastError == Some(r.ops[n].reason)
      && after.attempts == before.attempts && SameRun(before, after) && Unmarked(after) && !after.cancelRequested
  {
    assert r.tables[n + 1] == Step(r.tables[n], r.ops[n]);
  }

  /** A success, late request or not, is due again when the schedule says and starts counting attempts afresh. */
  lemma SuccessIsDueAsScheduled(r: Run, n: nat, id: Id)
    requires IsRun(r) && n < |r.ops| && (r.ops[n].FinishSuccess? || r.ops[n].FinishCommitted?) && FindsAt(r, n, id)
    ensures id in r.tables[n + 1]
    ensures var before, after := RowAt(r, n, id), RowAt(r, n + 1, id);
      && after.state == Succeeded && after.nextDue == r.ops[n].nextDue && after.attempts == 0
      && after.lastOutcome == Some(DidSucceed) && after.lastError.None?
      && SameRun(before, after) && Unmarked(after) && !after.cancelRequested
  {
    assert r.tables[n + 1] == Step(r.tables[n], r.ops[n]);
  }

  /** A skipped run is queued as it was due, its attempt spent. */
  lemma SkipKeepsItsDueTime(r: Run, n: nat, id: Id)
    requires IsRun(r) && n < |r.ops| && r.ops[n].FinishSkipped? && FindsAt(r, n, id)
    ensures id in r.tables[n + 1]
    ensures var before, after := RowAt(r, n, id), RowAt(r, n + 1, id);
      && after.state == Queued && after.nextDue == before.nextDue && after.attempts == before.attempts
      && after.lastOutcome == Some(WasSkipped) && after.lastError == before.lastError
      && SameRun(before, after) && Unmarked(after) && !after.cancelRequested
  {
    assert r.tables[n + 1] == Step(r.tables[n], r.ops[n]);
  }

  /** A cancelled run keeps its due time, its attempts and the request. */
  lemma CancelledKeepsItsRequest(r: Run, n: nat, id: Id)
    requires IsRun(r) && n < |r.ops| && r.ops[n].FinishCancelled? && FindsAt(r, n, id)
    ensures id in r.tables[n + 1]
    ensures var before, after := RowAt(r, n, id), RowAt(r, n + 1, id);
      && after.state == Cancelled && after.nextDue == before.nextDue && after.attempts == before.attempts
      && after.lastOutcome == Some(WasCancelled) && after.lastError == Some(r.ops[n].reason)
      && SameRun(before, after) && Unmarked(after) && after.cancelRequested == before.cancelRequested
  {
    assert r.tables[n + 1] == Step(r.tables[n], r.ops[n]);
  }

  /** A request leaves a running row running and takes any other row out of turn. */
  lemma CancelRequestsOrCancels(r: Run, n: nat, id: Id)
    requires IsRun(r) && n < |r.ops| && r.ops[n].CancelJob? && FindsAt(r, n, id)
    ensures id in r.tables[n + 1]
    ensures var before, after := RowAt(r, n, id), RowAt(r, n + 1, id);
      && after.cancelRequested && after.nextDue == before.nextDue && after.attempts == before.attempts
      && SameRun(before, after)
      && after.committedAt == before.committedAt && after.committedFailed == before.committedFailed
      && (before.state == Running ==>
            after.state == Running && after.lastOutcome == before.lastOutcome && after.lastError == before.lastError)
      && (before.state != Running ==>
            && after.state == Cancelled && after.lastOutcome == Some(WasCancelled)
            && after.lastError == Some("cancelled by user"))
  {
    assert r.tables[n + 1] == Step(r.tables[n], r.ops[n]);
  }

  /** A claim starts the attempt it names, in its window, with nothing asked of it and nothing committed. */
  lemma ClaimStartsAfresh(r: Run, n: nat, id: Id)
    requires IsRun(r) && n < |r.ops| && r.ops[n].Claim? && FindsAt(r, n, id)
    ensures id in r.tables[n + 1]
    ensures var before, after := RowAt(r, n, id), RowAt(r, n + 1, id);
      && after.state == Running && after.attempts == before.attempts + 1 == r.ops[n].attempt
      && after.lastRun == Some(r.ops[n].startedAt) && after.lastWindow == Some(r.ops[n].window)
      && after.config == before.config && after.nextDue == before.nextDue
      && after.lastOutcome == before.lastOutcome && after.lastError == before.lastError
      && Unmarked(after) && !after.cancelRequested
  {
    assert r.tables[n + 1] == Step(r.tables[n], r.ops[n]);
  }

  /** Marking writes the marker and a failure's reason, and no more. */
  lemma MarkKeepsTheRest(r: Run, n: nat, id: Id)
    requires IsRun(r) && n < |r.ops| && r.ops[n].MarkCommitted? && FindsAt(r, n, id)
    ensures id in r.tables[n + 1]
    ensures var before, after := RowAt(r, n, id), RowAt(r, n + 1, id);
      && after.state == Running && after.nextDue == before.nextDue && after.attempts == before.attempts
      && after.lastOutcome == before.lastOutcome && SameRun(before, after)
      && after.cancelRequested == before.cancelRequested
      && (r.ops[n].outcome.CommittedSuccess? ==> after.lastError == before.lastError)
  {
    assert r.tables[n + 1] == Step(r.tables[n], r.ops[n]);
  }

  /** Scheduling sets configuration and due time, and keeps the state and the record of a row that is there. */
  lemma ScheduleSetsWhatItOwns(r: Run, n: nat, id: Id)
    requires IsRun(r) && n < |r.ops| && r.ops[n].Schedule? && r.ops[n].id == id
    ensures id in r.tables[n + 1]
    ensures var after := RowAt(r, n + 1, id);
      && after.config == r.ops[n].config && after.nextDue == Some(r.ops[n].due)
      && (id in r.tables[n] ==>
            var before := RowAt(r, n, id);
            && after.state == before.state && after.attempts == before.attempts && after.lastRun == before.lastRun
            && after.lastOutcome == before.lastOutcome && after.lastError == before.lastError
            && after.lastWindow == before.lastWindow && after.cancelRequested == before.cancelRequested
            && after.committedAt == before.committedAt && after.committedFailed == before.committedFailed)
      && (id !in r.tables[n] ==> IsFresh(after) && after.lastRun.None?)
  {
    assert r.tables[n + 1] == Step(r.tables[n], r.ops[n]);
  }

  /** Queued with no record. */
  predicate IsFresh(row: Row) {
    && row.state == Queued && row.attempts == 0 && row.lastOutcome.None? && row.lastError.None?
    && row.lastWindow.None? && !row.cancelRequested && Unmarked(row)
  }

  /** Reconfiguring a row that does not run makes it as good as new, but for when it last ran. */
  lemma ReconfigureStartsOver(r: Run, n: nat, id: Id)
    requires IsRun(r) && n < |r.ops| && r.ops[n].Reconfigure? && r.ops[n].id == id
    requires id in r.tables[n] ==> r.tables[n][id].state != Running
    ensures id in r.tables[n + 1]
    ensures var after := RowAt(r, n + 1, id);
      && after.config == r.ops[n].config && after.nextDue == Some(r.ops[n].due) && IsFresh(after)
      && after.lastRun == (if id in r.tables[n] then RowAt(r, n, id).lastRun else None)
  {
    RowsOk(r, n);
    assert r.tables[n + 1] == Step(r.tables[n], r.ops[n]);
  }

  lemma DeleteDeletes(r: Run, n: nat, id: Id)
    requires IsRun(r) && n < |r.ops| && r.ops[n].DeleteJob? && FindsAt(r, n, id)
    ensures id !in r.tables[n + 1]
  {
    assert r.tables[n + 1] == Step(r.tables[n], r.ops[n]);
  }

  /**
  Recovery: a run without a request is queued for now or for when it was due, if that was before; a run that
  committed a success is due when its cadence says; a cancelled or failed one keeps its due time. The attempts
  stay but for a success.
  */
  lemma RecoveryIsDue(r: Run, n: nat, id: Id)
    requires IsRun(r) && n < |r.ops| && r.ops[n].Recover? && id in r.tables[n] && r.tables[n][id].state == Running
    ensures id in r.tables[n + 1]
    ensures var before, after, now := RowAt(r, n, id), RowAt(r, n + 1, id), r.ops[n].now;
      && SameRun(before, after) && Unmarked(after) && !after.cancelRequested
      && (after.state == Queued ==>
            && after.nextDue.Some? && after.nextDue.value <= now
            && (before.nextDue.Some? && before.nextDue.value <= now ==> after.nextDue == before.nextDue)
            && (before.nextDue.None? || before.nextDue.value > now ==> after.nextDue == Some(now))
            && after.attempts == before.attempts
            && after.lastOutcome == before.lastOutcome && after.lastError == before.lastError)
      && (after.state == Succeeded ==>
            && after.attempts == 0
            && after.nextDue == (if before.config.cadence in r.ops[n].schedules
                                 then r.ops[n].schedules[before.config.cadence] else None))
      && (after.state in {Failed, Cancelled} ==>
            after.nextDue == before.nextDue && after.attempts == before.attempts && after.lastError.Some?)
      && (after.state == Cancelled ==> after.lastError == Some("cancelled before recovery"))
      && (after.state == Queued <==> !before.cancelRequested)
  {
    assert r.tables[n + 1] == Step(r.tables[n], r.ops[n]);
  }

  // ---------------------------------------------------------------------------------------------
  // When a job can be claimed again
  // ---------------------------------------------------------------------------------------------

  /** The runner would find the row due, and its claim would take it. */
  predicate ClaimableAt(row: Row, now: Instant, window: Window) {
    && row.config.enabled && (row.state == Queued || row.state == Succeeded)
    && row.nextDue.Some? && row.nextDue.value <= now && row.lastWindow != Some(window)
  }

  /** After a failure with a retry time the job can be claimed exactly from then on, in any window but its last. */
  lemma RetriedFromItsRetryTime(r: Run, n: nat, id: Id, now: Instant, window: Window)
    requires IsRun(r) && n < |r.ops| && r.ops[n].FinishFailure? && r.ops[n].retryAt.Some? && FindsAt(r, n, id)
    ensures id in r.tables[n + 1]
    ensures ClaimableAt(RowAt(r, n + 1, id), now, window) <==>
      RowAt(r, n, id).config.enabled && r.ops[n].retryAt.value <= now && RowAt(r, n, id).lastWindow != Some(window)
  {
    FailureRetriesOrEnds(r, n, id);
  }

  /** After a failure without one, no claim takes it until it is reconfigured or deleted. */
  lemma FailedForGood(r: Run, n: nat, m: nat, id: Id)
    requires IsRun(r) && n < m < |r.ops| && r.ops[n].FinishFailure? && r.ops[n].retryAt.None? && FindsAt(r, n, id)
    requires forall k :: n < k < m ==> !Renews(r.ops[k], id)
    ensures !ClaimsAt(r, m, id)
  {
    FailureRetriesOrEnds(r, n, id);
    TerminalUntilRenewed(r, n + 1, m, id);
  }

  /** A successful or skipped job waits for its due time, and can be claimed in any window but its last. */
  lemma WaitsForItsTurn(r: Run, n: nat, id: Id, now: Instant, window: Window)
    requires IsRun(r) && n < |r.ops| && FindsAt(r, n, id)
    requires r.ops[n].FinishSuccess? || r.ops[n].FinishCommitted? || r.ops[n].FinishSkipped?
    ensures id in r.tables[n + 1]
    ensures var due := if r.ops[n].FinishSkipped? then RowAt(r, n, id).nextDue else r.ops[n].nextDue;
      ClaimableAt(RowAt(r, n + 1, id), now, window) <==>
        && RowAt(r, n, id).config.enabled && due.Some? && due.value <= now
        && RowAt(r, n, id).lastWindow != Some(window)
  {
    if r.ops[n].FinishSkipped? { SkipKeepsItsDueTime(r, n, id); } else { SuccessIsDueAsScheduled(r, n, id); }
  }

  /** A job requeued by recovery can be claimed at once, in any window but the one it was running in. */
  lemma RecoveredRunsAtOnce(r: Run, n: nat, id: Id, window: Window)
    requires IsRun(r) && n < |r.ops| && r.ops[n].Recover? && id in r.tables[n] && r.tables[n][id].state == Running
    requires !r.tables[n][id].cancelRequested
    ensures id in r.tables[n + 1]
    ensures ClaimableAt(RowAt(r, n + 1, id), r.ops[n].now, window) <==>
      RowAt(r, n, id).config.enabled && RowAt(r, n, id).lastWindow != Some(window)
  {
    RecoveryIsDue(r, n, id);
  }

  /** What is claimable is claimed, by a claimant that holds its attempts. */
  lemma ClaimableIsClaimed(r: Run, n: nat, id: Id)
    requires IsRun(r) && n < |r.ops| && r.ops[n].Claim? && r.ops[n].id == id && id in r.tables[n]
    requires ClaimableAt(r.tables[n][id], r.ops[n].startedAt, r.ops[n].window)
    requires r.ops[n].attempt == r.tables[n][id].attempts + 1
    ensures ClaimsAt(r, n, id)
  {
  }
}
