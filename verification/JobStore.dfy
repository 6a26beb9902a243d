/**
The statements of crates/db-worker/src/jobs.rs over the mutable table, and what the runner of
crates/job-runtime/src/lib.rs records with them at the end of an invocation.
*/
module JobStores {
  import opened Common
  import opened Jobs
  import Ordering

  predicate HasCommitted(row: Row) {
    row.state == Running && row.cancelRequested && row.committedAt.Some?
  }

  function RecoverThose(t: Table, ids: set<Id>, now: Instant, schedules: map<string, Option<Instant>>): Table {
    map id | id in t :: if id in ids then RecoverRow(t[id], now, schedules) else t[id]
  }

  function CancelRow(row: Row): Row {
    row.(state := Cancelled, lastOutcome := Some(WasCancelled), lastError := Some("cancelled before recovery"),
         cancelRequested := false, committedAt := None, committedFailed := None)
  }

  function RequeueRow(row: Row, now: Instant): Row {
    row.(state := Queued, cancelRequested := false, committedAt := None, committedFailed := None,
         nextDue := if row.nextDue.None? || row.nextDue.value > now then Some(now) else row.nextDue)
  }

  /** The second statement of recovery. */
  function CancelThose(t: Table, ids: set<Id>): Table {
    map id | id in t ::
      if id in ids then CancelRow(t[id]) else t[id]
  }

  /** The third. */
  function RequeueThose(t: Table, ids: set<Id>, now: Instant): Table {
    map id | id in t ::
      if id in ids then RequeueRow(t[id], now) else t[id]
  }

  /** Together they settle every running row once, each as `RecoverRow` says. */
  lemma RecoveryIsThreeStatements(t: Table, committed: set<Id>, cancelled: set<Id>, requeued: set<Id>,
                                  now: Instant, schedules: map<string, Option<Instant>>)
    requires forall id :: id in committed <==> id in t && HasCommitted(t[id])
    requires var t1 := RecoverThose(t, committed, now, schedules);
      forall id :: id in cancelled <==>
        id in t1 && t1[id].state == Running && t1[id].cancelRequested && t1[id].committedAt.None?
    requires var t2 := CancelThose(RecoverThose(t, committed, now, schedules), cancelled);
      forall id :: id in requeued <==> id in t2 && t2[id].state == Running && !t2[id].cancelRequested
    ensures RequeueThose(CancelThose(RecoverThose(t, committed, now, schedules), cancelled), requeued, now)
      == Step(t, Recover(now, schedules))
    ensures |committed| + |cancelled| + |requeued| == |set id | id in t && t[id].state == Running|
  {
    var t1 := RecoverThose(t, committed, now, schedules);
    forall id | id in t
      ensures id in cancelled <==> t[id].state == Running && t[id].cancelRequested && t[id].committedAt.None?
    {
      assert t1[id] == if id in committed then RecoverRow(t[id], now, schedules) else t[id];
    }
    assert t1.Keys == t.Keys;
    var t2 := CancelThose(t1, cancelled);
    assert t2.Keys == t.Keys;
    forall id | id in t ensures id in requeued <==> t[id].state == Running && !t[id].cancelRequested {
      assert id in cancelled ==> t2[id].state == Cancelled;
      assert id !in cancelled ==> t2[id] == t1[id];
    }
    forall id | id in t ensures RequeueThose(t2, requeued, now)[id] == RecoverRow(t[id], now, schedules) {
      if t[id].state == Running && !HasCommitted(t[id]) { OneRow(t[id], now, schedules); }
      assert t2[id] == if id in cancelled then CancelRow(t1[id]) else t1[id];
    }
    CountRunning(t, committed, cancelled, requeued);
  }

  lemma RecoverOneMore(t: Table, done: set<Id>, id: Id, now: Instant, schedules: map<string, Option<Instant>>)
    requires id in t && id !in done
    ensures RecoverThose(t, done, now, schedules)[id] == t[id]
    ensures RecoverThose(t, done, now, schedules)[id := RecoverRow(t[id], now, schedules)]
      == RecoverThose(t, done + {id}, now, schedules)
  {
  }

  lemma OneRow(row: Row, now: Instant, schedules: map<string, Option<Instant>>)
    requires row.state == Running && !HasCommitted(row)
    ensures row.cancelRequested ==> RecoverRow(row, now, schedules) == CancelRow(row)
    ensures !row.cancelRequested ==> RecoverRow(row, now, schedules) == RequeueRow(row, now)
  {
  }

  lemma CountRunning(t: Table, committed: set<Id>, cancelled: set<Id>, requeued: set<Id>)
    requires forall id :: id in committed <==> id in t && HasCommitted(t[id])
    requires forall id :: id in cancelled <==>
      id in t && t[id].state == Running && t[id].cancelRequested && t[id].committedAt.None?
    requires forall id :: id in requeued <==> id in t && t[id].state == Running && !t[id].cancelRequested
    ensures |committed| + |cancelled| + |requeued| == |set id | id in t && t[id].state == Running|
  {
    assert committed !! cancelled && committed + cancelled !! requeued;
    assert committed + cancelled + requeued == set id | id in t && t[id].state == Running;
  }

  /** ORDER BY next_due_at, id. */
  predicate DueLe(t: Table, a: Id, b: Id) { DueOf(t, a) < DueOf(t, b) || (DueOf(t, a) == DueOf(t, b) && a <= b) }

  function DueOf(t: Table, id: Id): Instant {
    if id in t && t[id].nextDue.Some? then t[id].nextDue.value else 0
  }

  method OrderByDue(t: Table, found: seq<Id>) returns (due: seq<Id>)
    requires Ordering.Distinct(found)
    ensures forall id :: id in due <==> id in found
    ensures forall i, j :: 0 <= i < j < |due| ==> due[i] != due[j] && DueLe(t, due[i], due[j])
  {
    var le := (a: Id, b: Id) => DueLe(t, a, b);
    due := Ordering.Sort(found, le);
    Ordering.SortSorts(found, le);
    Ordering.DistinctReordered(found, due);
    forall id ensures id in due <==> id in found {
      assert id in due <==> id in multiset(due);
    }
    forall i, j | 0 <= i < j < |due| ensures DueLe(t, due[i], due[j]) { assert le(due[i], due[j]); }
  }

  class JobStore {
    var rows: Table

    constructor ()
      ensures rows == map[]
    {
      rows := map[];
    }

    /** `mark_committed`, in the transaction of the job's durable effect. */
    method MarkCommitted(id: Id, at: Instant, outcome: CommitOutcome) returns (changed: bool)
      modifies this
      ensures rows == Step(old(rows), Op.MarkCommitted(id, at, outcome))
      ensures changed <==> id in old(rows) && old(rows[id]).state == Running
      ensures changed ==> rows[id].committedAt.Some?
      ensures changed && old(rows[id]).committedAt.Some? ==> rows[id].committedAt == old(rows[id]).committedAt
    {
      changed := id in rows && rows[id].state == Running;
      if changed {
        var row := rows[id];
        var error := row.lastError;
        if row.committedFailed.None? && outcome.CommittedFailure? {
          error := Some(outcome.reason);
        }
        var when := if row.committedAt.None? then Some(at) else row.committedAt;
        var failed := if row.committedFailed.None? then Some(outcome.CommittedFailure?) else row.committedFailed;
        rows := rows[id := row.(committedAt := when, committedFailed := failed, lastError := error)];
      }
    }

    /** `schedule_job`: the run state and the attempt history of an existing row are kept. */
    method ScheduleJob(id: Id, config: Config, due: Instant)
      modifies this
      ensures rows == Step(old(rows), Op.Schedule(id, config, due))
      ensures id in old(rows) ==> rows[id].state == old(rows[id]).state && rows[id].attempts == old(rows[id]).attempts
    {
      if id in rows {
        rows := rows[id := rows[id].(config := config, nextDue := Some(due))];
      } else {
        rows := rows[id := Row(config, Some(due), Queued, 0, None, None, None, None, false, None, None)];
      }
    }

    /** `reconfigure_job`: refused while the job runs. */
    method ReconfigureJob(id: Id, config: Config, due: Instant) returns (ok: bool)
      modifies this
      ensures rows == Step(old(rows), Op.Reconfigure(id, config, due))
      ensures ok <==> !(id in old(rows) && old(rows[id]).state == Running)
      ensures ok ==> id in rows && rows[id].state == Queued && rows[id].attempts == 0 && rows[id].lastWindow.None?
    {
      if id in rows && rows[id].state == Running {
        return false;
      }
      if id in rows {
        rows := rows[id := rows[id].(config := config, nextDue := Some(due), state := Queued, attempts := 0,
                                     lastOutcome := None, lastError := None, lastWindow := None,
                                     cancelRequested := false)];
      } else {
        rows := rows[id := Row(config, Some(due), Queued, 0, None, None, None, None, false, None, None)];
      }
      return true;
    }

    method CancelJob(id: Id) returns (changed: bool)
      modifies this
      ensures rows == Step(old(rows), Op.CancelJob(id))
      ensures changed <==> id in old(rows) && old(rows[id]).state !in {Failed, Cancelled}
    {
      changed := id in rows && rows[id].state != Failed && rows[id].state != Cancelled;
      if changed {
        var row := rows[id].(cancelRequested := true);
        if row.state != Running {
          row := row.(state := Cancelled, lastOutcome := Some(WasCancelled), lastError := Some("cancelled by user"));
        }
        rows := rows[id := row];
      }
    }

    method DeleteJob(id: Id) returns (changed: bool)
      modifies this
      ensures rows == Step(old(rows), Op.DeleteJob(id))
      ensures changed <==> id in old(rows) && old(rows[id]).state != Running
    {
      changed := id in rows && rows[id].state != Running;
      if changed {
        rows := rows - {id};
      }
    }

    /** The first part of recovery: one of the marked rows with a request, with its own outcome. */
    method RecoverCommitted(id: Id, now: Instant, schedules: map<string, Option<Instant>>)
      requires id in rows && HasCommitted(rows[id])
      modifies this
      ensures rows == old(rows)[id := RecoverRow(old(rows[id]), now, schedules)]
    {
      var row := rows[id];
      if row.committedFailed == Some(true) {
        var error := if row.lastError.Some? then row.lastError else Some("the run failed before recovery");
        row := row.(state := Failed, lastOutcome := Some(DidFail), lastError := error, cancelRequested := false,
                    committedAt := None, committedFailed := None);
      } else {
        var nextDue := if row.config.cadence in schedules then schedules[row.config.cadence] else None;
        row := row.(state := Succeeded, attempts := 0, nextDue := nextDue, lastOutcome := Some(DidSucceed),
                    lastError := None, cancelRequested := false, committedAt := None, committedFailed := None);
      }
      rows := rows[id := row];
    }

    /** `recover_running`: the marked rows one by one, then the two bulk updates, in one transaction. */
    method RecoverRunning(now: Instant, schedules: map<string, Option<Instant>>) returns (recovered: nat)
      modifies this
      ensures rows == Step(old(rows), Recover(now, schedules))
      ensures recovered == |set id | id in old(rows) && old(rows[id]).state == Running|
    {
      ghost var before := rows;
      var committed := set id | id in rows && HasCommitted(rows[id]);
      var left := committed;
      while left != {}
        invariant left <= committed
        invariant rows == RecoverThose(before, committed - left, now, schedules)
        decreases |left|
      {
        var id :| id in left;
        RecoverOneMore(before, committed - left, id, now, schedules);
        assert committed - left + {id} == committed - (left - {id});
        RecoverCommitted(id, now, schedules);
        left := left - {id};
      }
      assert committed - left == committed;
      var cancelled := set id | id in rows && rows[id].state == Running && rows[id].cancelRequested
        && rows[id].committedAt.None?;
      rows := CancelThose(rows, cancelled);
      var requeued := set id | id in rows && rows[id].state == Running && !rows[id].cancelRequested;
      rows := RequeueThose(rows, requeued, now);
      recovered := |committed| + |cancelled| + |requeued|;
      RecoveryIsThreeStatements(before, committed, cancelled, requeued, now, schedules);
    }

    /** `due_jobs`: the rows a claim in this window may take, by due time and then id. */
    method DueJobs(now: Instant, window: Window) returns (due: seq<Id>)
      ensures forall id :: id in due <==>
        && id in rows && rows[id].config.enabled && rows[id].nextDue.Some? && rows[id].nextDue.value <= now
        && (rows[id].state == Queued || rows[id].state == Succeeded) && rows[id].lastWindow != Some(window)
      ensures forall id :: id in due ==> Guard(Op.Claim(id, rows[id].attempts + 1, now, window), rows[id])
      ensures forall i, j :: 0 <= i < j < |due| ==>
        var a, b := rows[due[i]].nextDue.value, rows[due[j]].nextDue.value;
        a < b || (a == b && due[i] < due[j])
    {
      var selected := set id | id in rows && rows[id].config.enabled
        && (rows[id].state == Queued || rows[id].state == Succeeded)
        && rows[id].nextDue.Some? && rows[id].nextDue.value <= now && rows[id].lastWindow != Some(window);
      var found, left := [], selected;
      while left != {}
        invariant left <= selected
        invariant forall id :: id in found <==> id in selected - left
        invariant Ordering.Distinct(found)
        decreases |left|
      {
        var id :| id in left;
        assert id !in found;
        found := found + [id];
        left := left - {id};
      }
      due := OrderByDue(rows, found);
    }

    method ClaimJob(id: Id, attempt: nat, startedAt: Instant, window: Window) returns (claimed: bool)
      modifies this
      ensures rows == Step(old(rows), Op.Claim(id, attempt, startedAt, window))
      ensures claimed <==> Hits(old(rows), Op.Claim(id, attempt, startedAt, window), id)
      ensures claimed ==> rows[id].state == Running && rows[id].attempts == old(rows[id]).attempts + 1
      ensures claimed ==> rows[id].committedAt.None?
    {
      claimed := id in rows && (rows[id].state == Queued || rows[id].state == Succeeded)
        && rows[id].attempts == attempt - 1 && (rows[id].lastWindow.None? || rows[id].lastWindow.value != window);
      if claimed {
        rows := rows[id := rows[id].(state := Running, attempts := attempt, lastRun := Some(startedAt),
                                     lastWindow := Some(window), cancelRequested := false,
                                     committedAt := None, committedFailed := None)];
      }
    }

    method FinishSuccess(id: Id, nextDue: Option<Instant>) returns (applied: bool)
      modifies this
      ensures rows == Step(old(rows), Op.FinishSuccess(id, nextDue))
      ensures applied <==> Hits(old(rows), Op.FinishSuccess(id, nextDue), id)
    {
      applied := id in rows && rows[id].state == Running && !rows[id].cancelRequested;
      if applied {
        rows := rows[id := rows[id].(state := Succeeded, attempts := 0, nextDue := nextDue,
                                     lastOutcome := Some(DidSucceed), lastError := None, cancelRequested := false,
                                     committedAt := None, committedFailed := None)];
      }
    }

    method FinishCommitted(id: Id, nextDue: Option<Instant>)
      modifies this
      ensures rows == Step(old(rows), Op.FinishCommitted(id, nextDue))
    {
      if id in rows && rows[id].state == Running {
        rows := rows[id := rows[id].(state := Succeeded, attempts := 0, nextDue := nextDue,
                                     lastOutcome := Some(DidSucceed), lastError := None, cancelRequested := false,
                                     committedAt := None, committedFailed := None)];
      }
    }

    method FinishFailure(id: Id, reason: string, retryAt: Option<Instant>) returns (applied: bool)
      modifies this
      ensures rows == Step(old(rows), Op.FinishFailure(id, reason, retryAt))
      ensures applied <==> Hits(old(rows), Op.FinishFailure(id, reason, retryAt), id)
    {
      var state := if retryAt.Some? then Queued else Failed;
      applied := id in rows && (rows[id].state == Running || rows[id].state == Queued || rows[id].state == Succeeded)
        && (!rows[id].cancelRequested || rows[id].committedAt.Some?);
      if applied {
        var due := if retryAt.Some? then retryAt else rows[id].nextDue;
        rows := rows[id := rows[id].(state := state, nextDue := due, lastOutcome := Some(DidFail),
                                     lastError := Some(reason), cancelRequested := false,
                                     committedAt := None, committedFailed := None)];
      }
    }

    method FinishCancelled(id: Id, reason: string)
      modifies this
      ensures rows == Step(old(rows), Op.FinishCancelled(id, reason))
    {
      if id in rows && rows[id].state == Running {
        rows := rows[id := rows[id].(state := Cancelled, lastOutcome := Some(WasCancelled), lastError := Some(reason),
                                     committedAt := None, committedFailed := None)];
      }
    }

    method FinishSkipped(id: Id) returns (applied: bool)
      modifies this
      ensures rows == Step(old(rows), Op.FinishSkipped(id))
      ensures applied <==> Hits(old(rows), Op.FinishSkipped(id), id)
    {
      applied := id in rows && rows[id].state == Running && !rows[id].cancelRequested;
      if applied {
        rows := rows[id := rows[id].(state := Queued, lastOutcome := Some(WasSkipped), cancelRequested := false,
                                     committedAt := None, committedFailed := None)];
      }
    }
  }

  // ---------------------------------------------------------------------------------------------
  // What the runner records
  // ---------------------------------------------------------------------------------------------

  datatype Execution = ExecSucceeded | ExecCommitted | ExecFailed(reason: string) | ExecCancelled | ExecSkipped

  /** The runner's override between the handler's result and the terminal write. */
  function Verdict(marked: bool, wasCancelled: bool, e: Execution): Execution {
    if wasCancelled && !e.ExecCommitted? && !marked then ExecCancelled
    else if marked && e.ExecSucceeded? then ExecCommitted
    else e
  }

  /** `apply_execution`: a terminal write that finds no row it may write falls back to `finish_cancelled`. */
  function Conclude(t: Table, id: Id, e: Execution, nextDue: Option<Instant>, retryAt: Option<Instant>): Table {
    match e
    case ExecCommitted => Step(t, Op.FinishCommitted(id, nextDue))
    case ExecCancelled => Step(t, Op.FinishCancelled(id, "job cancelled"))
    case _ =>
      var op := if e.ExecSucceeded? then Op.FinishSuccess(id, nextDue)
                else if e.ExecFailed? then Op.FinishFailure(id, e.reason, retryAt)
                else Op.FinishSkipped(id);
      if Hits(t, op, id) then Step(t, op) else Step(t, Op.FinishCancelled(id, "job cancelled"))
  }

  /** What the runner reads of the commit marker: a failed read counts as not committed. */
  function ReadMarker(row: Row, readOk: bool): bool { readOk && row.committedAt.Some? }

  /**
  When the runner records a run as cancelled, whatever its handler returned, whether the token fired, and
  whether the marker could be read. A run that reports Committed, or a success or failure that is not
  recorded as cancelled, is recorded as what it is.
  */
  lemma RunRecordedCancelledExactly(t: Table, id: Id, readOk: bool, wasCancelled: bool, e: Execution,
                                    nextDue: Option<Instant>, retryAt: Option<Instant>)
    requires id in t && t[id].state == Running
    ensures var row, marked := t[id], ReadMarker(t[id], readOk);
      var end := Conclude(t, id, Verdict(marked, wasCancelled, e), nextDue, retryAt);
      && id in end
      && (end[id].state == Cancelled <==>
          !e.ExecCommitted? &&
          (|| e.ExecCancelled?
           || (wasCancelled && !marked)
           || (row.cancelRequested &&
               (e.ExecSkipped? || (e.ExecSucceeded? && !marked) || (e.ExecFailed? && row.committedAt.None?)))))
      && (e.ExecSucceeded? || e.ExecCommitted? ==> end[id].state in {Succeeded, Cancelled})
      && (e.ExecFailed? && end[id].state != Cancelled ==>
          end[id].lastOutcome == Some(DidFail) && end[id].lastError == Some(e.reason))
  {
  }

  /**
  A committed run whose marker is read is recorded as cancelled only if its handler says so: it returns
  Cancelled, or Skipped with a request pending. Whatever the handler returned, the token no longer matters.
  A committed run whose marker cannot be read may also lose a success, or a failure the token raced with.
  */
  lemma CommittedRunCancelledExactly(t: Table, id: Id, readOk: bool, wasCancelled: bool, e: Execution,
                                     nextDue: Option<Instant>, retryAt: Option<Instant>)
    requires id in t && t[id].state == Running && t[id].committedAt.Some?
    ensures var end := Conclude(t, id, Verdict(ReadMarker(t[id], readOk), wasCancelled, e), nextDue, retryAt);
      var byHandler := e.ExecCancelled? || (e.ExecSkipped? && t[id].cancelRequested);
      var unread := !readOk && !e.ExecCommitted? && (wasCancelled || (e.ExecSucceeded? && t[id].cancelRequested));
      && id in end
      && (end[id].state == Cancelled <==> byHandler || unread)
      && (!byHandler && !unread && (e.ExecSucceeded? || e.ExecCommitted?) ==> end[id].state == Succeeded)
      && (!unread && e.ExecFailed? ==> end[id].lastOutcome == Some(DidFail) && end[id].lastError == Some(e.reason))
  {
    RunRecordedCancelledExactly(t, id, readOk, wasCancelled, e, nextDue, retryAt);
  }

  /**
  A committed success that nobody asked to cancel, recorded as cancelled: the store could be read neither
  by the watcher, which then fires the token, nor for the marker.
  */
  lemma FailedReadsCancelACommit() returns (r: Run, id: Id)
    ensures IsRun(r)
    ensures var t := r.tables[|r.ops|];
      && id in t && t[id].state == Running && t[id].committedAt.Some? && !t[id].cancelRequested
      && var end := Conclude(t, id, Verdict(ReadMarker(t[id], false), true, ExecSucceeded), None, None);
         id in end && end[id].state == Cancelled
  {
    id := 0;
    var config := Config("memory", "daily", 3, 60, 10_000, true, true, None);
    var ops := [Op.Schedule(id, config, 0), Op.Claim(id, 1, 0, 1), Op.MarkCommitted(id, 5, CommittedSuccess)];
    var t1 := Step(map[], ops[0]);
    var t2 := Step(t1, ops[1]);
    var t3 := Step(t2, ops[2]);
    r := Run([map[], t1, t2, t3], ops);
  }

  /**
  A lock-releasing kind has no override: there a plain Succeeded of a committed run is recorded as
  cancelled exactly when a request is pending, which is why such a handler must return Committed.
  */
  lemma ClaimedRunNeedsCommitted(t: Table, id: Id, e: Execution, nextDue: Option<Instant>, retryAt: Option<Instant>)
    requires id in t && t[id].state == Running && t[id].committedAt.Some?
    ensures var end := Conclude(t, id, e, nextDue, retryAt);
      && id in end
      && (end[id].state == Cancelled <==>
          e.ExecCancelled? || ((e.ExecSkipped? || e.ExecSucceeded?) && t[id].cancelRequested))
  {
  }
}
