/** What every run of the base image protocol keeps: a Ready base is an instant of the vault. */
module BaseImageSafety {
  import opened Common
  import opened BaseImage

  // ---------------------------------------------------------------------------------------------
  // The invariant of every run
  // ---------------------------------------------------------------------------------------------

  ghost predicate ImageOk(r: Run, n: nat, img: Vault, baseSeq: int, v: Vault)
    requires Steps(r) && n <= |r.events|
  {
    Taken(r, n, img, baseSeq) && Earlier(img, v)
  }

  /** A digest in a row is the digest of an image taken for that row's seq. */
  ghost predicate VaultOk(r: Run, n: nat, v: Vault)
    requires Steps(r) && n <= |r.events|
  {
    && (forall k :: k in v.outbox ==> k < |v.history|)
    && (v.base.Some? ==>
        && (v.base.value.state == NoBase <==> v.base.value.digest.None?)
        && 0 <= v.base.value.baseSeq
        && (v.base.value.digest.Some? ==>
            var file := v.base.value.digest.value.of;
            file.Image? && ImageOk(r, n, file.vault, v.base.value.baseSeq, v)))
  }

  ghost predicate TempOk(r: Run, n: nat, w: World, c: Capture)
    requires Steps(r) && n <= |r.events| && c.Running?
  {
    w.temp.Some? && w.temp.value.Image? && ImageOk(r, n, StripSecrets(w.temp.value.vault), c.asked, w.vault)
  }

  ghost predicate CaptureOk(r: Run, n: nat, w: World, c: Capture)
    requires Steps(r) && n <= |r.events|
  {
    c.Running? ==>
      && w.open && 0 <= c.asked
      && (c.at in {Checked, Folded} ==> w.vault.outbox == {})
      && (c.at == Folded ==> w.file == w.vault)
      && (c.at in {Copied, Stripped, Hashed, Sealing} ==> TempOk(r, n, w, c))
      && (c.at in {Stripped, Hashed, Sealing} ==> w.temp.value.vault.secrets == {})
      && (c.at in {Hashed, Sealing} ==> c.digest == Some(Sha256(w.temp.value)))
      && (c.at in {Renamed, Synced} ==>
          c.digest.Some? && c.digest.value.of.Image? && ImageOk(r, n, c.digest.value.of.vault, c.asked, w.vault))
  }

  ghost predicate Inv(r: Run, n: nat)
    requires Steps(r) && n <= |r.events|
  {
    var w := r.states[n];
    VaultOk(r, n, w.vault) && (forall v :: v in w.backups ==> VaultOk(r, n, v)) && CaptureOk(r, n, w, w.capture)
  }

  lemma ImageOkGrows(r: Run, n: nat, img: Vault, baseSeq: int, v: Vault, v': Vault)
    requires Steps(r) && n < |r.events| && ImageOk(r, n, img, baseSeq, v)
    requires v.history <= v'.history
    requires forall k :: k in v'.outbox ==> k in v.outbox || |v.history| <= k < |v'.history|
    ensures ImageOk(r, n + 1, img, baseSeq, v')
  {
    var i :| 0 <= i < n && TakesAt(r, i, img, baseSeq);
    assert TakesAt(r, i, img, baseSeq);
  }

  /** The committed vault changes in one step at most by its history, its outbox, its credentials. */
  lemma VaultOkGrows(r: Run, n: nat, v: Vault, v': Vault)
    requires Steps(r) && n < |r.events| && VaultOk(r, n, v)
    requires v.history <= v'.history && v'.base == v.base
    requires forall k :: k in v'.outbox ==> k in v.outbox || |v.history| <= k < |v'.history|
    ensures VaultOk(r, n + 1, v')
  {
    if v.base.Some? && v.base.value.digest.Some? {
      ImageOkGrows(r, n, v.base.value.digest.value.of.vault, v.base.value.baseSeq, v, v');
    }
  }

  lemma BackupsOkGrow(r: Run, n: nat)
    requires Steps(r) && n < |r.events| && Inv(r, n)
    ensures forall v :: v in r.states[n].backups ==> VaultOk(r, n + 1, v)
  {
    forall v | v in r.states[n].backups ensures VaultOk(r, n + 1, v) { VaultOkGrows(r, n, v, v); }
  }

  /** A step outside the capture that leaves the row alone keeps what the capture holds. */
  lemma CaptureOkGrows(r: Run, n: nat)
    requires Steps(r) && n < |r.events| && Inv(r, n)
    requires var w, w' := r.states[n], r.states[n + 1];
      && w'.capture == w.capture && w'.temp == w.temp && w'.open == w.open
      && w.vault.history <= w'.vault.history
      && (forall k :: k in w'.vault.outbox ==> k in w.vault.outbox || |w.vault.history| <= k < |w'.vault.history|)
      && (WriterHeld(w.capture) ==> w'.vault == w.vault && (w'.file == w.file || w'.file == w.vault))
    ensures CaptureOk(r, n + 1, r.states[n + 1], r.states[n + 1].capture)
  {
    var w, w' := r.states[n], r.states[n + 1];
    var c := w.capture;
    if c.Running? && c.at in {Copied, Stripped, Hashed, Sealing} {
      ImageOkGrows(r, n, StripSecrets(w.temp.value.vault), c.asked, w.vault, w'.vault);
    }
    if c.Running? && c.at in {Renamed, Synced} {
      ImageOkGrows(r, n, c.digest.value.of.vault, c.asked, w.vault, w'.vault);
    }
  }

  lemma OtherStepKeeps(r: Run, n: nat)
    requires Steps(r) && n < |r.events| && Inv(r, n) && !CaptureEvent(r.events[n])
    ensures Inv(r, n + 1)
  {
    var w, w', e := r.states[n], r.states[n + 1], r.events[n];
    assert w' == OtherStep(w, e);
    BackupsOkGrow(r, n);
    match e {
      case Restore(older) =>
        if !w.open && older in w.backups { VaultOkGrows(r, n, older, older); }
        else { VaultOkGrows(r, n, w.vault, w.vault); CaptureOkGrows(r, n); }
      case Crash(_) => VaultOkGrows(r, n, w.vault, w.vault);
      case Open(_, _, _) =>
        VaultOkGrows(r, n, w.vault, w.vault);
        if w.open { CaptureOkGrows(r, n); }
      case BeginSwap =>
        VaultOkGrows(r, n, w.vault, w.vault.(base := w.vault.base));
        CaptureOkGrows(r, n);
      case _ =>
        VaultOkGrows(r, n, w.vault, w'.vault);
        CaptureOkGrows(r, n);
    }
  }

  /** Before the copy is taken, a capture holds nothing to keep. */
  lemma EarlyStepKeeps(r: Run, n: nat)
    requires Steps(r) && n < |r.events| && Inv(r, n) && CaptureEvent(r.events[n])
    requires r.states[n].capture.Idle? || r.states[n].capture.at in {Gated, Recorded, Vouched, Checked, Folded}
    ensures Inv(r, n + 1)
  {
    var w, w', e := r.states[n], r.states[n + 1], r.events[n];
    var c := w.capture;
    assert w' == CaptureStep(w, e);
    BackupsOkGrow(r, n);
    VaultOkGrows(r, n, w.vault, w.vault);
    if w' == w {
      CaptureOkGrows(r, n);
    } else if c.Running? && c.at == Folded && e.Copy? && e.ok {
      assert TakesAt(r, n, StripSecrets(w.vault), c.asked);
    }
  }

  /** The private copy stays the instant it was taken at, through strip and hash. */
  lemma PrivateStepKeeps(r: Run, n: nat)
    requires Steps(r) && n < |r.events| && Inv(r, n) && CaptureEvent(r.events[n])
    requires r.states[n].capture.Running? && r.states[n].capture.at in {Copied, Stripped, Hashed}
    ensures Inv(r, n + 1)
  {
    var w, w', e := r.states[n], r.states[n + 1], r.events[n];
    assert w' == CaptureStep(w, e) && w'.vault == w.vault;
    BackupsOkGrow(r, n);
    VaultOkGrows(r, n, w.vault, w.vault);
    ImageOkGrows(r, n, StripSecrets(w.temp.value.vault), w.capture.asked, w.vault, w.vault);
  }

  /** And through the rename, by which it becomes base.db. */
  lemma RenameStepKeeps(r: Run, n: nat)
    requires Steps(r) && n < |r.events| && Inv(r, n) && CaptureEvent(r.events[n])
    requires r.states[n].capture.Running? && r.states[n].capture.at == Sealing
    ensures Inv(r, n + 1)
  {
    var w, w', e := r.states[n], r.states[n + 1], r.events[n];
    assert w' == CaptureStep(w, e) && w'.vault == w.vault;
    BackupsOkGrow(r, n);
    VaultOkGrows(r, n, w.vault, w.vault);
    ImageOkGrows(r, n, StripSecrets(w.temp.value.vault), w.capture.asked, w.vault, w.vault);
  }

  /** Committing the row puts the digest of that instant on record. */
  lemma PlacedStepKeeps(r: Run, n: nat)
    requires Steps(r) && n < |r.events| && Inv(r, n) && CaptureEvent(r.events[n])
    requires r.states[n].capture.Running? && r.states[n].capture.at in {Renamed, Synced}
    ensures Inv(r, n + 1)
  {
    var w, w', e := r.states[n], r.states[n + 1], r.events[n];
    assert w' == CaptureStep(w, e);
    BackupsOkGrow(r, n);
    VaultOkGrows(r, n, w.vault, w.vault);
    ImageOkGrows(r, n, w.capture.digest.value.of.vault, w.capture.asked, w.vault, w.vault);
  }

  lemma CaptureStepKeeps(r: Run, n: nat)
    requires Steps(r) && n < |r.events| && Inv(r, n) && CaptureEvent(r.events[n])
    ensures Inv(r, n + 1)
  {
    var c := r.states[n].capture;
    if c.Idle? || c.at in {Gated, Recorded, Vouched, Checked, Folded} { EarlyStepKeeps(r, n); }
    else if c.at in {Copied, Stripped, Hashed} { PrivateStepKeeps(r, n); }
    else if c.at == Sealing { RenameStepKeeps(r, n); }
    else { PlacedStepKeeps(r, n); }
  }

  lemma {:induction false} Invariant(r: Run, n: nat)
    requires IsRun(r) && n <= |r.events|
    ensures Inv(r, n)
  {
    if n > 0 {
      Invariant(r, n - 1);
      if CaptureEvent(r.events[n - 1]) { CaptureStepKeeps(r, n - 1); } else { OtherStepKeeps(r, n - 1); }
    }
  }

  // ---------------------------------------------------------------------------------------------
  // What a Ready base means
  // ---------------------------------------------------------------------------------------------

  /**
  Ready{s} is the stripped copy of the committed vault at one instant of the run at which nothing was
  unpushed, taken by a capture given s; whatever failed, crashed, was restored or overwritten since.
  No unpushed command is inside it, and the live history is its history and then later commands.
  */
  lemma ReadyIsAnInstant(r: Run, n: nat, baseSeq: int)
    requires IsRun(r) && n <= |r.events| && StatusIn(r.states[n]) == ReadyAt(baseSeq)
    ensures r.states[n].image.Some? && r.states[n].image.value.Image?
    ensures var img, live := r.states[n].image.value.vault, r.states[n].vault;
      && (exists i :: 0 <= i < n && TakesAt(r, i, img, baseSeq))
      && img.secrets == {} && img.outbox == {} && 0 <= baseSeq
      && img.history <= live.history
      && (forall k :: k in live.outbox ==> |img.history| <= k < |live.history|)
  {
    Invariant(r, n);
    var img := r.states[n].image.value.vault;
    var i :| 0 <= i < n && TakesAt(r, i, img, baseSeq);
  }
}
