/**
Which commands beyond the image are pending or were pushed, and concrete runs that show the limits of
what is proved.
*/
module BaseImageOutbox {
  import opened Common
  import opened BaseImage
  import opened BaseImageSafety
  import opened BaseImageProgress

  // ---------------------------------------------------------------------------------------------
  // Which commands beyond the image are still to be pushed
  // ---------------------------------------------------------------------------------------------

  /** Step `i` commits the command at log position `k`. */
  ghost predicate LandsAt(r: Run, i: nat, k: nat)
    requires Steps(r) && i < |r.events|
  {
    var w := r.states[i];
    r.events[i].Land? && Writable(w) && w.healthy && |w.vault.history| == k
  }

  ghost predicate PushedBetween(r: Run, i: nat, n: nat, k: nat)
    requires Steps(r) && i <= n <= |r.events|
  {
    exists j :: i <= j < n && PushesAt(r, j, k)
  }

  ghost predicate PushesAt(r: Run, j: nat, k: nat)
    requires Steps(r) && j < |r.events|
  {
    r.events[j] == Push(k) && Writable(r.states[j]) && k in r.states[j].vault.outbox
  }

  /**
  A command is pending or has been pushed exactly when Sync was on (a base row existed) at the moment
  it landed. A command that lands between the copy of the first initialize and its commit is therefore
  neither in the image nor ever in the outbox.
  */
  lemma {:induction false} PendingOrPushedIffSyncWasOn(r: Run, i: nat, k: nat, n: nat)
    requires IsRun(r) && i < n <= |r.events| && LandsAt(r, i, k)
    requires forall j :: i < j < n ==> !r.events[j].Restore?
    ensures k < |r.states[n].vault.history|
    ensures k in r.states[n].vault.outbox ==> r.states[i].vault.base.Some?
    ensures (k in r.states[n].vault.outbox || PushedBetween(r, i + 1, n, k)) <==> r.states[i].vault.base.Some?
  {
    Invariant(r, i);
    if n > i + 1 {
      PendingOrPushedIffSyncWasOn(r, i, k, n - 1);
      OneStepKeepsPending(r.states[n - 1], r.events[n - 1], k);
      if PushedBetween(r, i + 1, n - 1, k) {
        var j :| i + 1 <= j < n - 1 && PushesAt(r, j, k);
        assert PushesAt(r, j, k);
      } else if k in r.states[n - 1].vault.outbox && k !in r.states[n].vault.outbox {
        assert PushesAt(r, n - 1, k);
      }
    }
  }

  lemma OneStepKeepsPending(w: World, e: Event, k: nat)
    requires k < |w.vault.history| && !e.Restore?
    ensures k < |Step(w, e).vault.history|
    ensures k in Step(w, e).vault.outbox ==> k in w.vault.outbox
    ensures k in w.vault.outbox ==> k in Step(w, e).vault.outbox || (e == Push(k) && Writable(w))
  {
    if CaptureEvent(e) { assert Step(w, e).vault.outbox == w.vault.outbox; }
  }

  /**
  When Sync is Ready, a command that landed is lost to the server, in neither the image nor the outbox
  and never pushed, exactly when it is beyond the image and no base row existed as it landed.
  */
  lemma LostToTheServerExactly(r: Run, i: nat, k: nat, n: nat)
    requires IsRun(r) && i < n <= |r.events| && LandsAt(r, i, k)
    requires forall j :: i < j < n ==> !r.events[j].Restore?
    requires StatusIn(r.states[n]).ReadyAt?
    ensures r.states[n].image.Some? && r.states[n].image.value.Image?
    ensures var img := r.states[n].image.value.vault;
      (k !in r.states[n].vault.outbox && !PushedBetween(r, i + 1, n, k) && !(k < |img.history|))
      <==> (|img.history| <= k && r.states[i].vault.base.None?)
  {
    ReadyIsAnInstant(r, n, StatusIn(r.states[n]).baseSeq);
    PendingOrPushedIffSyncWasOn(r, i, k, n);
  }

  // ---------------------------------------------------------------------------------------------
  // Spelling out runs
  // ---------------------------------------------------------------------------------------------

  /** The last state of a run in which nothing is ever pushed. */
  ghost predicate Reaches(r: Run, w: World) {
    IsRun(r) && r.states[|r.events|] == w && forall k :: 0 <= k < |r.events| ==> !r.events[k].Push?
  }

  /** A step that resurrects nothing, or the one `readable` leaves open: phase 0 cannot read the base. */
  predicate Plain(w: World, e: Event, readable: bool) {
    !Resurrects(w, e) || (!readable && e == Vouch(false))
  }

  /** From state `from` on the base is Ready or being replaced, by plain steps. */
  ghost predicate Stands(r: Run, from: nat, readable: bool)
    requires Steps(r)
  {
    && (forall k :: from <= k < |r.states| ==> ReadyOrPlacing(r.states[k]))
    && (forall k :: from <= k < |r.events| ==> Plain(r.states[k], r.events[k], readable))
  }

  lemma Extend(r: Run, w: World, e: Event, readable: bool) returns (r': Run, w': World)
    requires Reaches(r, w) && !e.Push?
    ensures Reaches(r', w') && w' == Step(w, e) && r.states <= r'.states
    ensures ReadyOrPlacing(w') && Plain(w, e, readable) ==>
      forall from :: Stands(r, from, readable) ==> Stands(r', from, readable)
  {
    w' := Step(w, e);
    r' := Run(r.states + [w'], r.events + [e]);
  }

  const EMPTY_VAULT := Vault([], {}, {}, None)

  /** How phase 0 finds the base. */
  function Found(w: World, readable: bool): Option<BaseState> {
    if w.vault.base.None? then None else Some(VerifyBase(w.vault.base.value, w.image, readable))
  }

  /** The capture of the vault of `w`. */
  function At(w: World, at: Point, mode: Mode, asked: int, readable: bool, digest: Option<Digest>): Capture {
    Running(at, mode, asked, w.vault.base, Found(w, readable), digest)
  }

  predicate CanBegin(w: World, asked: int) {
    w.open && w.healthy && w.capture.Idle? && w.unsynced.None? && w.vault.outbox == {} && asked >= 0
  }

  /** Over a Ready base `r'` keeps standing wherever `r` did. */
  ghost predicate KeepsStanding(r: Run, w: World, r': Run, readable: bool)
    requires Steps(r) && Steps(r')
  {
    StatusIn(w).ReadyAt? ==> forall from :: Stands(r, from, readable) ==> Stands(r', from, readable)
  }

  lemma StandsOn(r: Run, w: World, r1: Run, w1: World, r2: Run, readable: bool)
    requires Steps(r) && Steps(r1) && Steps(r2) && w1.vault.base == w.vault.base && w1.image == w.image
    requires KeepsStanding(r, w, r1, readable) && KeepsStanding(r1, w1, r2, readable)
    ensures KeepsStanding(r, w, r2, readable)
  {
    assert StatusIn(w1) == StatusIn(w);
  }

  /** Phase 0. */
  lemma Vouching(r: Run, w: World, mode: Mode, asked: int, readable: bool) returns (r': Run, w': World)
    requires Reaches(r, w) && CanBegin(w, asked)
    ensures r.states <= r'.states
    ensures Reaches(r', w') && w' == w.(capture := At(w, Vouched, mode, asked, readable, None))
    ensures KeepsStanding(r, w, r', readable)
  {
    r', w' := Extend(r, w, Begin(mode, asked), readable);
    r', w' := Extend(r', w', ReadRecord(true), readable);
    r', w' := Extend(r', w', Vouch(readable), readable);
  }

  /** Phases 0 and 1, when phase 1 lets the capture through. */
  lemma Copying(r: Run, w: World, mode: Mode, asked: int, readable: bool) returns (r': Run, w': World)
    requires Reaches(r, w) && CanBegin(w, asked)
    requires Admits(mode, asked, w.vault.base, Found(w, readable))
    ensures r.states <= r'.states
    ensures Reaches(r', w')
    ensures w' == w.(file := w.vault, temp := Some(Image(w.vault)),
                     capture := At(w, Copied, mode, asked, readable, None))
    ensures KeepsStanding(r, w, r', readable)
  {
    r', w' := Vouching(r, w, mode, asked, readable);
    r', w' := Extend(r', w', Check(true), readable);
    r', w' := Extend(r', w', Fold(false), readable);
    r', w' := Extend(r', w', Copy(true, None), readable);
  }

  /** Phase 2. */
  lemma Hashing(r: Run, w: World, copied: Vault, readable: bool) returns (r': Run, w': World)
    requires Reaches(r, w) && w.temp == Some(Image(copied)) && w.capture.Running? && w.capture.at == Copied
    ensures r.states <= r'.states
    ensures Reaches(r', w')
    ensures var image := Image(StripSecrets(copied));
      w' == w.(temp := Some(image), capture := w.capture.(at := Hashed, digest := Some(Sha256(image))))
    ensures KeepsStanding(r, w, r', readable)
  {
    r', w' := Extend(r, w, Strip(true, None), readable);
    r', w' := Extend(r', w', Hash(true, None), readable);
  }

  /** Phase 2, and phase 3 up to the rename. */
  lemma SealingOf(r: Run, w: World, copied: Vault, readable: bool) returns (r': Run, w': World)
    requires Reaches(r, w) && w.healthy && w.temp == Some(Image(copied))
    requires w.capture.Running? && w.capture.at == Copied && w.capture.recorded == w.vault.base
    ensures r.states <= r'.states
    ensures Reaches(r', w')
    ensures var image := Image(StripSecrets(copied));
      w' == w.(temp := Some(image), capture := w.capture.(at := Sealing, digest := Some(Sha256(image))))
    ensures KeepsStanding(r, w, r', readable)
  {
    r', w' := Hashing(r, w, copied, readable);
    r', w' := Extend(r', w', Seal(true, None), readable);
  }

  lemma Renaming(r: Run, w: World, readable: bool) returns (r': Run, w': World)
    requires Reaches(r, w) && w.temp.Some? && w.capture.Running? && w.capture.at == Sealing
    ensures r.states <= r'.states
    ensures Reaches(r', w')
    ensures w' == w.(temp := None, image := w.temp, unsynced := None, capture := w.capture.(at := Synced))
    ensures KeepsStanding(r, w, r', readable)
  {
    r', w' := Extend(r, w, Rename(true, None), readable);
    r', w' := Extend(r', w', SyncDir(true), readable);
  }

  lemma Committing(r: Run, w: World, readable: bool) returns (r': Run, w': World)
    requires Reaches(r, w) && w.temp.Some? && w.capture.Running? && w.capture.at == Sealing
    requires w.capture.digest == Some(Sha256(w.temp.value))
    ensures r.states <= r'.states
    ensures Reaches(r', w')
    ensures w' == w.(vault := w.vault.(base := Some(BaseRow(w.capture.asked, w.capture.digest, Ready))),
                     temp := None, image := w.temp, unsynced := None, capture := Idle)
    ensures KeepsStanding(r, w, r', readable)
  {
    r', w' := Renaming(r, w, readable);
    r', w' := Extend(r', w', Commit(true), readable);
  }

  lemma Fresh() returns (r: Run, w: World)
    ensures Reaches(r, w) && w == World(true, true, EMPTY_VAULT, EMPTY_VAULT, None, None, None, Idle, {})
  {
    w := World(true, true, EMPTY_VAULT, EMPTY_VAULT, None, None, None, Idle, {});
    r := Run([w], []);
  }

  /** A capture from begin to commit, with nothing in between. */
  lemma Capturing(r: Run, w: World, mode: Mode, asked: int, readable: bool) returns (r': Run, w': World)
    requires Reaches(r, w) && CanBegin(w, asked)
    requires Admits(mode, asked, w.vault.base, Found(w, readable))
    ensures r.states <= r'.states
    ensures Reaches(r', w') && CanBegin(w', asked) && StatusIn(w') == ReadyAt(asked)
    ensures KeepsStanding(r, w, r', readable)
  {
    var r1, w1 := Copying(r, w, mode, asked, readable);
    var r2, w2 := SealingOf(r1, w1, w.vault, readable);
    r', w' := Committing(r2, w2, readable);
    StandsOn(r, w, r1, w1, r2, readable);
    StandsOn(r, w, r2, w2, r', readable);
  }

  // ---------------------------------------------------------------------------------------------
  // Concrete runs
  // ---------------------------------------------------------------------------------------------

  /**
  The gap is real: a run in which the first initialize succeeds and a command that landed between its
  copy and its commit is beyond the Ready image, not pending, and was never pushed.
  */
  lemma CommandMissedByTheFirstCapture() returns (r: Run, w: World)
    ensures Reaches(r, w)
    ensures StatusIn(w) == ReadyAt(7)
    ensures w.image == Some(Image(EMPTY_VAULT))
    ensures w.vault.history == [1] && w.vault.outbox == {}
  {
    r, w := Fresh();
    r, w := Copying(r, w, Initialize, 7, true);
    r, w := Extend(r, w, Land(1), true);
    assert w.vault == Vault([1], {}, {}, None);
    r, w := SealingOf(r, w, EMPTY_VAULT, true);
    r, w := Committing(r, w, true);
  }

  /** A second capture over the Ready base of a first one. */
  lemma SecondCapture(first: int, mode: Mode, asked: int, readable: bool)
    returns (r: Run, before: World, r': Run, after: World)
    requires first >= 0 && asked >= 0
    requires if mode == Initialize then !readable else readable && first <= asked
    ensures Reaches(r, before) && before.capture.Idle? && StatusIn(before) == ReadyAt(first)
    ensures Reaches(r', after) && r.states <= r'.states && StatusIn(after) == ReadyAt(asked)
    ensures Stands(r', |r.events|, readable)
  {
    r, before := Fresh();
    r, before := Capturing(r, before, Initialize, first, true);
    assert Stands(r, |r.events|, readable);
    r', after := Capturing(r, before, mode, asked, readable);
  }

  /**
  A base that phase 0 fails to read counts as none, so an initialize may replace a Ready base by one of
  a smaller seq. Of all that SeqNeverFallsUntilLost asks for, this run lacks only the readable vouch.
  */
  lemma UnreadableBaseIsReplaced() returns (r: Run, before: World, r': Run, after: World)
    ensures Reaches(r, before) && before.capture.Idle? && StatusIn(before) == ReadyAt(9)
    ensures Reaches(r', after) && r.states <= r'.states && StatusIn(after) == ReadyAt(3)
    ensures forall k :: |r.events| <= k < |r'.states| ==> ReadyOrPlacing(r'.states[k])
    ensures forall k :: |r.events| <= k < |r'.events| ==>
      Resurrects(r'.states[k], r'.events[k]) ==> r'.events[k] == Vouch(false)
  {
    r, before, r', after := SecondCapture(9, Initialize, 3, false);
  }

  /** And a run in which SeqNeverFallsUntilLost sees the base move: from Ready 3 to Ready 9. */
  lemma AdvanceMovesTheBase() returns (r: Run, before: World, r': Run, after: World)
    ensures Reaches(r, before) && before.capture.Idle? && StatusIn(before) == ReadyAt(3)
    ensures Reaches(r', after) && r.states <= r'.states && StatusIn(after) == ReadyAt(9)
    ensures forall k :: |r.events| <= k < |r'.states| ==> ReadyOrPlacing(r'.states[k])
    ensures forall k :: |r.events| <= k < |r'.events| ==> !Resurrects(r'.states[k], r'.events[k])
  {
    r, before, r', after := SecondCapture(3, Advance, 9, true);
  }
}
