/** How the base changes: failed captures, and the sequence number of the captures that succeed. */
module BaseImageProgress {
  import opened Common
  import opened BaseImage
  import opened BaseImageSafety

  // ---------------------------------------------------------------------------------------------
  // A failed capture leaves the old pair or reads as no base
  // ---------------------------------------------------------------------------------------------

  /** The events of a stretch in which no capture succeeds and nobody else writes the base. */
  predicate Unsealed(e: Event) {
    !(e.Commit? && e.ok) && !e.Restore? && !e.Overwrite? && !e.BeginSwap?
  }

  /** An image that was copied while the vault recorded `row`; it can never hash to the digest in `row`. */
  predicate CopiedUnder(content: Option<Content>, row: Option<BaseRow>) {
    content.Some? && content.value.Image? && content.value.vault.base == row
  }

  lemma CopyNeverMatchesItsRow(content: Content, row: BaseRow)
    requires CopiedUnder(Some(content), Some(row)) && row.digest.Some?
    ensures Sha256(content) != row.digest.value
  {
  }

  /** The row is still `start`'s, or a reconcile has recorded that base as lost. */
  predicate RowKept(start: Option<BaseRow>, row: Option<BaseRow>) {
    row == start || (start.Some? && row == Some(Forgotten(start.value)))
  }

  /** A file under `sync/` is the one at the start, none, or a copy made since. */
  predicate FileKept(start: World, row: Option<BaseRow>, content: Option<Content>) {
    || content == start.image
    || content.None?
    || CopiedUnder(content, start.vault.base)
    || (row != start.vault.base && CopiedUnder(content, row))
  }

  predicate Kept(start: World, w: World) {
    var row := w.vault.base;
    && RowKept(start.vault.base, row)
    && (w.capture.Running? ==> w.open)
    && FileKept(start, row, w.image)
    && (w.unsynced.Some? ==> FileKept(start, row, w.unsynced.value))
    && (w.capture.Running? && w.capture.at == Folded ==> w.file.base == row)
    && (w.capture.Running? && w.capture.at in {Copied, Stripped, Hashed, Sealing} ==>
        w.temp.Some? && w.temp.value.Image? && FileKept(start, row, w.temp)
        && (CopiedUnder(w.temp, start.vault.base) || CopiedUnder(w.temp, row)))
  }

  /** Up to the copy nothing durable moves but the fold. */
  lemma KeptBeforeCopy(start: World, w: World, e: Event)
    requires Kept(start, w) && CaptureEvent(e)
    requires w.capture.Idle? || w.capture.at in {Gated, Recorded, Vouched, Checked, Folded}
    ensures Kept(start, CaptureStep(w, e))
  {
    assert CaptureStep(w, e).vault == w.vault && CaptureStep(w, e).image == w.image;
  }

  lemma KeptAfterCopy(start: World, w: World, e: Event)
    requires Kept(start, w) && !(e.Commit? && e.ok) && CaptureEvent(e)
    requires w.capture.Running? && w.capture.at in {Copied, Stripped, Hashed, Sealing, Renamed, Synced}
    ensures Kept(start, CaptureStep(w, e))
  {
    assert CaptureStep(w, e).vault == w.vault && CaptureStep(w, e).file == w.file;
  }

  lemma KeptCaptureStep(start: World, w: World, e: Event)
    requires Kept(start, w) && !(e.Commit? && e.ok) && CaptureEvent(e)
    ensures Kept(start, CaptureStep(w, e))
  {
    if w.capture.Idle? || w.capture.at in {Gated, Recorded, Vouched, Checked, Folded} { KeptBeforeCopy(start, w, e); }
    else { KeptAfterCopy(start, w, e); }
  }

  lemma KeptOpenStep(start: World, w: World, tempRemoved: bool, readable: bool, written: bool)
    requires Kept(start, w)
    requires start.vault.base.Some? ==>
      (start.vault.base.value.state == NoBase <==> start.vault.base.value.digest.None?)
    ensures Kept(start, OpenStep(w, tempRemoved, readable, written))
  {
    var row, row' := w.vault.base, OpenStep(w, tempRemoved, readable, written).vault.base;
    assert row' == row || row' == Some(Forgotten(row.value));
  }

  lemma KeptOtherStep(start: World, w: World, e: Event)
    requires Kept(start, w) && !e.Restore? && !e.Overwrite? && !e.BeginSwap? && !e.Open? && !CaptureEvent(e)
    ensures Kept(start, OtherStep(w, e))
  {
    assert OtherStep(w, e).vault.base == w.vault.base;
  }

  lemma KeptStep(start: World, w: World, e: Event)
    requires Kept(start, w) && Unsealed(e)
    requires start.vault.base.Some? ==>
      (start.vault.base.value.state == NoBase <==> start.vault.base.value.digest.None?)
    ensures Kept(start, Step(w, e))
  {
    if CaptureEvent(e) { KeptCaptureStep(start, w, e); }
    else if e.Open? { KeptOpenStep(start, w, e.tempRemoved, e.readable, e.written); }
    else { KeptOtherStep(start, w, e); }
  }

  lemma KeptStatus(start: World, w: World)
    requires Kept(start, w)
    ensures StatusIn(w) == StatusIn(start) || StatusIn(w) == Lost
  {
    if w.vault.base.Some? && w.vault.base == start.vault.base && w.vault.base.value.digest.Some? && w.image.Some? {
      if w.image != start.image {
        CopyNeverMatchesItsRow(w.image.value, w.vault.base.value);
      }
    }
  }

  /**
  From any state with no capture in flight, whatever captures are tried, fail or die afterwards, and
  whatever commands, crashes and reopens come between: until one commits, the status is the one of
  the old pair, or there is no base.
  */
  lemma {:induction false} FailedCapturesKeepOrLose(r: Run, i: nat, n: nat)
    requires IsRun(r) && i <= n <= |r.events|
    requires r.states[i].capture.Idle? && r.states[i].unsynced.None?
    requires forall k :: i <= k < n ==> Unsealed(r.events[k])
    ensures Kept(r.states[i], r.states[n])
    ensures StatusIn(r.states[n]) == StatusIn(r.states[i]) || StatusIn(r.states[n]) == Lost
  {
    Invariant(r, i);
    if i < n {
      FailedCapturesKeepOrLose(r, i, n - 1);
      KeptStep(r.states[i], r.states[n - 1], r.events[n - 1]);
    }
    KeptStatus(r.states[i], r.states[n]);
  }

  // ---------------------------------------------------------------------------------------------
  // The base only moves forward
  // ---------------------------------------------------------------------------------------------

  /** Steps by which a base that read as lost can be readable again, or be read as lost while it is not. */
  predicate Resurrects(w: World, e: Event) {
    || (e.Restore? && !w.open)
    || (e.Vouch? && !e.readable)
    || (e.Overwrite? && StatusIn(w) == Lost && StatusIn(Step(w, e)).ReadyAt?)
  }

  /** An initialize that phase 0 let through runs only while there is no base. */
  predicate InitializesOnlyLost(w: World) {
    var c := w.capture;
    c.Running? && c.mode == Initialize && c.at !in {Gated, Recorded} && c.recorded == w.vault.base
      && (c.really.None? || c.really.value == NoBase)
    ==> !StatusIn(w).ReadyAt?
  }

  /** A seal that is about to commit: the row it replaces has not moved, and phase 1 let it through. */
  predicate SealOk(w: World) {
    var c := w.capture;
    && (c.Running? && c.at !in {Gated, Recorded, Vouched} ==> Admits(c.mode, c.asked, c.recorded, c.really))
    && (c.Running? && c.at in {Sealing, Renamed, Synced} ==> c.recorded == w.vault.base)
    && (c.Running? && c.at in {Checked, Folded} ==> c.recorded == w.vault.base)
    && (c.Running? && c.at == Folded ==> w.file.base == w.vault.base)
    && (c.Running? && c.at in {Copied, Stripped, Hashed, Sealing} ==> CopiedUnder(w.temp, c.recorded))
  }

  /** The facts of the run's invariant that this argument needs. */
  predicate RowAndOpen(w: World) {
    && (w.capture.Running? ==> w.open)
    && (w.vault.base.Some? ==> (w.vault.base.value.state == NoBase <==> w.vault.base.value.digest.None?))
  }

  lemma SealOkCaptureStep(w: World, e: Event)
    requires RowAndOpen(w) && SealOk(w) && CaptureEvent(e)
    ensures SealOk(CaptureStep(w, e))
  {
  }

  lemma SealOkOtherStep(w: World, e: Event)
    requires RowAndOpen(w) && SealOk(w) && !CaptureEvent(e)
    ensures SealOk(OtherStep(w, e))
  {
  }

  lemma SealOkStep(w: World, e: Event)
    requires RowAndOpen(w) && SealOk(w)
    ensures SealOk(Step(w, e))
  {
    if CaptureEvent(e) { SealOkCaptureStep(w, e); } else { SealOkOtherStep(w, e); }
  }

  lemma InitializesOnlyLostCaptureStep(w: World, e: Event)
    requires RowAndOpen(w) && SealOk(w) && InitializesOnlyLost(w) && !Resurrects(w, e) && CaptureEvent(e)
    ensures InitializesOnlyLost(CaptureStep(w, e))
  {
    if e.Rename? {
      RenamedReadsAsLost(w, e);
    } else if e.Vouch? || e.Commit? {
      assert CaptureStep(w, e).image == w.image;
    } else {
      assert CaptureStep(w, e).image == w.image && CaptureStep(w, e).vault == w.vault;
    }
  }

  lemma RenamedReadsAsLost(w: World, e: Event)
    requires RowAndOpen(w) && SealOk(w) && InitializesOnlyLost(w) && e.Rename?
    ensures InitializesOnlyLost(CaptureStep(w, e))
  {
    var c := w.capture;
    if c.Running? && c.at == Sealing && e.ok && w.vault.base.Some? && w.vault.base.value.digest.Some? {
      CopyNeverMatchesItsRow(w.temp.value, w.vault.base.value);
    }
  }

  lemma InitializesOnlyLostOtherStep(w: World, e: Event)
    requires RowAndOpen(w) && SealOk(w) && InitializesOnlyLost(w) && !Resurrects(w, e) && !CaptureEvent(e)
    ensures InitializesOnlyLost(OtherStep(w, e))
  {
  }

  lemma InitializesOnlyLostStep(w: World, e: Event)
    requires RowAndOpen(w) && SealOk(w) && InitializesOnlyLost(w) && !Resurrects(w, e)
    ensures InitializesOnlyLost(Step(w, e))
  {
    if CaptureEvent(e) { InitializesOnlyLostCaptureStep(w, e); } else { InitializesOnlyLostOtherStep(w, e); }
  }

  /** The seq on record, whatever the state of the base. */
  function RecordedSeq(w: World): int
    requires w.vault.base.Some?
  {
    w.vault.base.value.baseSeq
  }

  /** A capture that is putting its file in place; until it commits the base reads as lost. */
  predicate Placing(w: World) {
    w.capture.Running? && w.capture.at in {Renamed, Synced}
  }

  predicate ReadyOrPlacing(w: World) { StatusIn(w).ReadyAt? || Placing(w) }

  /** The base is Ready, or is being replaced by an advance that phase 1 let through. */
  predicate ReadyOrAdvancing(w: World) {
    w.vault.base.Some? && (StatusIn(w).ReadyAt? || (Placing(w) && w.capture.mode == Advance))
  }

  lemma PlacingOverReadyAdvances(w: World, e: Event)
    requires RowAndOpen(w) && SealOk(w) && InitializesOnlyLost(w) && CaptureEvent(e)
    requires ReadyOrAdvancing(w) && ReadyOrPlacing(CaptureStep(w, e))
    ensures ReadyOrAdvancing(CaptureStep(w, e))
  {
    if !(w.capture.Running? && w.capture.at == Synced && e.Commit? && e.ok) {
      assert CaptureStep(w, e).vault == w.vault;
    }
  }

  lemma ReadyThroughOtherStep(w: World, e: Event)
    requires RowAndOpen(w) && SealOk(w) && InitializesOnlyLost(w) && !(e.Restore? && !w.open) && !CaptureEvent(e)
    requires ReadyOrAdvancing(w)
    requires ReadyOrPlacing(OtherStep(w, e))
    ensures ReadyOrAdvancing(OtherStep(w, e))
  {
    assert Placing(OtherStep(w, e)) ==> OtherStep(w, e).capture == w.capture;
  }

  lemma ForwardStep(w: World, e: Event)
    requires RowAndOpen(w) && SealOk(w) && InitializesOnlyLost(w) && !Resurrects(w, e) && ReadyOrAdvancing(w)
    requires ReadyOrPlacing(Step(w, e))
    ensures ReadyOrAdvancing(Step(w, e))
  {
    if CaptureEvent(e) { PlacingOverReadyAdvances(w, e); } else { ReadyThroughOtherStep(w, e); }
  }

  lemma RunIsRowAndOpen(r: Run, n: nat)
    requires IsRun(r) && n <= |r.events|
    ensures RowAndOpen(r.states[n])
  {
    Invariant(r, n);
  }

  lemma {:induction false} ForwardInvariant(r: Run, j: nat, n: nat)
    requires IsRun(r) && j <= n <= |r.events| && r.states[j].capture.Idle?
    requires forall k :: j <= k < n ==> !Resurrects(r.states[k], r.events[k])
    ensures RowAndOpen(r.states[n]) && InitializesOnlyLost(r.states[n]) && SealOk(r.states[n])
  {
    RunIsRowAndOpen(r, n);
    if j < n {
      ForwardInvariant(r, j, n - 1);
      SealOkStep(r.states[n - 1], r.events[n - 1]);
      InitializesOnlyLostStep(r.states[n - 1], r.events[n - 1]);
    }
  }

  lemma {:induction false} SealsAreOk(r: Run, n: nat)
    requires IsRun(r) && n <= |r.events|
    ensures RowAndOpen(r.states[n]) && SealOk(r.states[n])
  {
    RunIsRowAndOpen(r, n);
    if n > 0 {
      SealsAreOk(r, n - 1);
      SealOkStep(r.states[n - 1], r.events[n - 1]);
    }
  }

  lemma ReadySeqIsRecorded(w: World)
    requires StatusIn(w).ReadyAt?
    ensures ReadyOrAdvancing(w) && StatusIn(w).baseSeq == RecordedSeq(w)
  {
  }

  /** An initialize commits over a row of a greater seq than it was asked for. */
  predicate InitializesBelow(w: World, e: Event) {
    && w.capture.Running? && w.capture.at == Synced && e == Commit(true)
    && w.capture.mode == Initialize && w.vault.base.Some? && w.capture.asked < RecordedSeq(w)
  }

  lemma CommitLowersExactly(w: World, e: Event)
    requires RowAndOpen(w) && SealOk(w) && w.vault.base.Some? && CaptureEvent(e)
    ensures CaptureStep(w, e).vault.base.Some?
    ensures RecordedSeq(CaptureStep(w, e)) < RecordedSeq(w) <==> InitializesBelow(w, e)
  {
    if !(w.capture.Running? && w.capture.at == Synced && e.Commit? && e.ok) {
      assert CaptureStep(w, e).vault == w.vault;
    }
  }

  lemma OthersKeepTheSeq(w: World, e: Event)
    requires w.vault.base.Some? && !(e.Restore? && !w.open) && !CaptureEvent(e)
    ensures OtherStep(w, e).vault.base.Some? && RecordedSeq(OtherStep(w, e)) == RecordedSeq(w)
  {
  }

  /** In every run the seq on record falls, other than by a restore, exactly at such a commit. */
  lemma SeqFallsExactly(r: Run, n: nat)
    requires IsRun(r) && n < |r.events| && r.states[n].vault.base.Some?
    requires !(r.events[n].Restore? && !r.states[n].open)
    ensures r.states[n + 1].vault.base.Some?
    ensures RecordedSeq(r.states[n + 1]) < RecordedSeq(r.states[n]) <==> InitializesBelow(r.states[n], r.events[n])
  {
    SealsAreOk(r, n);
    var w, e := r.states[n], r.events[n];
    assert r.states[n + 1] == Step(w, e);
    if CaptureEvent(e) { CommitLowersExactly(w, e); } else { OthersKeepTheSeq(w, e); }
  }

  /**
  From a Ready base on, through any number of captures, failed and committed, and whatever is lost in
  between, the seq on record never falls without a restore or an initialize asked for less that commits.
  */
  lemma {:induction false} SeqNeverFalls(r: Run, i: nat, n: nat)
    requires IsRun(r) && i <= n <= |r.events| && r.states[i].vault.base.Some?
    requires forall k :: i <= k < n ==> !(r.events[k].Restore? && !r.states[k].open)
    requires forall k :: i <= k < n ==> !InitializesBelow(r.states[k], r.events[k])
    ensures r.states[n].vault.base.Some? && RecordedSeq(r.states[i]) <= RecordedSeq(r.states[n])
  {
    if i < n {
      var m := n - 1;
      SeqNeverFalls(r, i, m);
      SeqFallsExactly(r, m);
    }
  }

  /** In a stretch that is never lost, with nothing resurrected since `j`, no initialize commits at all. */
  lemma {:induction false} OnlyAdvancesCommit(r: Run, j: nat, i: nat, n: nat)
    requires IsRun(r) && j <= i <= n <= |r.events| && r.states[j].capture.Idle?
    requires forall k :: j <= k < n ==> !Resurrects(r.states[k], r.events[k])
    requires ReadyOrAdvancing(r.states[i])
    requires forall k :: i <= k <= n ==> ReadyOrPlacing(r.states[k])
    ensures ReadyOrAdvancing(r.states[n])
  {
    if i < n {
      var m := n - 1;
      OnlyAdvancesCommit(r, j, i, m);
      ForwardInvariant(r, j, m);
      assert r.states[m + 1] == Step(r.states[m], r.events[m]);
      ForwardStep(r.states[m], r.events[m]);
    }
  }

  lemma ReadyNeverInitializesBelow(w: World, e: Event)
    requires InitializesOnlyLost(w) && SealOk(w) && ReadyOrAdvancing(w)
    ensures !InitializesBelow(w, e)
  {
  }

  /**
  So from a Ready base on the seq never falls until the base is lost, that is until a state that is neither
  Ready nor inside a capture's own rename and commit, when since a last moment `j` without a capture in
  flight nothing was resurrected and phase 0 could read what it had to vouch for.
  */
  lemma SeqNeverFallsUntilLost(r: Run, j: nat, i: nat, n: nat)
    requires IsRun(r) && j <= i <= n <= |r.events| && r.states[j].capture.Idle?
    requires forall k :: j <= k < n ==> !Resurrects(r.states[k], r.events[k])
    requires StatusIn(r.states[i]).ReadyAt?
    requires forall k :: i <= k <= n ==> ReadyOrPlacing(r.states[k])
    ensures r.states[n].vault.base.Some? && StatusIn(r.states[i]).baseSeq <= RecordedSeq(r.states[n])
    ensures StatusIn(r.states[n]).ReadyAt? ==> StatusIn(r.states[i]).baseSeq <= StatusIn(r.states[n]).baseSeq
  {
    ReadySeqIsRecorded(r.states[i]);
    forall k | i <= k < n ensures !InitializesBelow(r.states[k], r.events[k]) {
      OnlyAdvancesCommit(r, j, i, k);
      ForwardInvariant(r, j, k);
      ReadyNeverInitializesBelow(r.states[k], r.events[k]);
    }
    SeqNeverFalls(r, i, n);
    if StatusIn(r.states[n]).ReadyAt? { ReadySeqIsRecorded(r.states[n]); }
  }

  // ---------------------------------------------------------------------------------------------
  // When a capture replaces a Ready base by one of a smaller seq
  // ---------------------------------------------------------------------------------------------

  /** A capture in flight from step `i` to `n`, and nobody else writing the base. */
  ghost predicate OneCapture(r: Run, i: nat, n: nat)
    requires Steps(r) && n <= |r.events|
  {
    && i < n && r.states[i].capture.Idle? && r.events[i].Begin?
    && forall k :: i < k < n ==>
      r.states[k].capture.Running? && !r.events[k].Restore? && !r.events[k].Overwrite? && !r.events[k].BeginSwap?
  }

  /** Phase 0 of that capture could not read the file it had to vouch for. */
  ghost predicate VouchedUnread(r: Run, i: nat, n: nat)
    requires Steps(r) && n <= |r.events|
  {
    exists k :: i < k < n && UnreadAt(r, k)
  }

  ghost predicate UnreadAt(r: Run, k: int)
    requires Steps(r) && 0 <= k < |r.events|
  {
    r.events[k] == Vouch(false) && r.states[k].capture.Running? && r.states[k].capture.at == Recorded
  }

  /** What a capture begun over the Ready base of `start` knows of it. */
  predicate CapturesOver(start: World, begun: Event, w: World, unread: bool)
    requires begun.Begin?
  {
    var c := w.capture;
    && c.Running? && c.mode == begun.mode && c.asked == begun.asked
    && w.open && w.vault.base == start.vault.base
    && (c.at !in {Renamed, Synced} ==> w.image == start.image)
    && (c.at in {Gated, Recorded} ==> !unread)
    && (c.at != Gated ==> c.recorded == start.vault.base)
    && (c.at !in {Gated, Recorded} ==> c.really == Some(if unread then NoBase else Ready))
    && (c.at !in {Gated, Recorded, Vouched} ==> Admits(c.mode, c.asked, c.recorded, c.really))
  }

  lemma CapturesOverStep(start: World, begun: Event, w: World, unread: bool, e: Event)
    requires begun.Begin? && StatusIn(start).ReadyAt? && CapturesOver(start, begun, w, unread)
    requires !e.Restore? && !e.Overwrite? && !e.BeginSwap? && Step(w, e).capture.Running?
    ensures CapturesOver(start, begun, Step(w, e), unread || (e == Vouch(false) && w.capture.at == Recorded))
  {
    if CaptureEvent(e) { CapturesOverCaptureStep(start, begun, w, unread, e); }
  }

  lemma CapturesOverCaptureStep(start: World, begun: Event, w: World, unread: bool, e: Event)
    requires begun.Begin? && StatusIn(start).ReadyAt? && CapturesOver(start, begun, w, unread)
    requires CaptureEvent(e) && CaptureStep(w, e).capture.Running?
    ensures CapturesOver(start, begun, CaptureStep(w, e), unread || (e == Vouch(false) && w.capture.at == Recorded))
  {
    assert CaptureStep(w, e).vault == w.vault;
  }

  lemma OneMoreVouch(r: Run, i: nat, n: nat)
    requires Steps(r) && i < n < |r.events|
    ensures VouchedUnread(r, i, n + 1) <==> VouchedUnread(r, i, n) || UnreadAt(r, n)
  {
    if VouchedUnread(r, i, n) {
      var k :| i < k < n && UnreadAt(r, k);
      assert UnreadAt(r, k);
    }
  }

  lemma CaptureInFlight(r: Run, i: nat, n: nat)
    requires Steps(r) && n < |r.events| && i < n && OneCapture(r, i, n + 1)
    ensures r.states[i + 1] == Step(r.states[i], r.events[i])
    ensures r.states[n] == Step(r.states[n - 1], r.events[n - 1]) && r.states[n].capture.Running?
    ensures i + 1 < n ==> OneCapture(r, i, n)
    ensures i + 1 < n ==> var e := r.events[n - 1]; !e.Restore? && !e.Overwrite? && !e.BeginSwap?
  {
  }

  lemma {:induction false} CapturesOverRun(r: Run, i: nat, n: nat)
    requires Steps(r) && n < |r.events| && i < n && OneCapture(r, i, n + 1) && StatusIn(r.states[i]).ReadyAt?
    ensures CapturesOver(r.states[i], r.events[i], r.states[n], VouchedUnread(r, i, n))
  {
    CaptureInFlight(r, i, n);
    if i + 1 < n {
      var m := n - 1;
      CapturesOverRun(r, i, m);
      CapturesOverStep(r.states[i], r.events[i], r.states[m], VouchedUnread(r, i, m), r.events[m]);
      OneMoreVouch(r, i, m);
    }
  }

  /**
  A capture that begins over Ready{s} and commits, while nobody else writes the base, leaves Ready of
  the seq it was asked for. It is an initialize exactly when phase 0 could not read the file, and its
  seq is below s exactly when it is such an initialize and was asked for less.
  */
  lemma SmallerBaseExactly(r: Run, i: nat, n: nat)
    requires IsRun(r) && n < |r.events| && OneCapture(r, i, n + 1) && StatusIn(r.states[i]).ReadyAt?
    requires r.states[n].capture.Running? && r.states[n].capture.at == Synced && r.events[n] == Commit(true)
    ensures r.states[n + 1].vault.base.Some? && RecordedSeq(r.states[n + 1]) == r.events[i].asked
    ensures r.events[i].mode == Initialize <==> VouchedUnread(r, i, n)
    ensures RecordedSeq(r.states[n + 1]) < StatusIn(r.states[i]).baseSeq <==>
      r.events[i].mode == Initialize && VouchedUnread(r, i, n) && r.events[i].asked < StatusIn(r.states[i]).baseSeq
  {
    CapturesOverRun(r, i, n);
  }
}
