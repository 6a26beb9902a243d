/** What the status of a base is, and what opening a vault does to it. */
module BaseImageReopen {
  import opened Common
  import opened BaseImage
  import opened BaseImageSafety

  /** The file is there and hashes to the digest on record. */
  predicate FileMatches(row: BaseRow, image: Option<Content>) {
    row.digest.Some? && image.Some? && row.digest.value == Sha256(image.value)
  }

  /** The status is Ready only while the recorded file is the one that is there. */
  lemma StatusExactly(v: Vault, image: Option<Content>)
    ensures StatusOf(v, image) == SyncOff <==> v.base.None?
    ensures forall s :: StatusOf(v, image) == ReadyAt(s) <==>
      v.base.Some? && v.base.value.state == Ready && v.base.value.baseSeq == s && FileMatches(v.base.value, image)
    ensures forall s :: StatusOf(v, image) == RebasingFrom(s) <==>
      v.base.Some? && v.base.value.state == Rebasing && v.base.value.baseSeq == s
    ensures StatusOf(v, image) == Lost <==>
      v.base.Some? && (v.base.value.state == NoBase
                       || (v.base.value.state == Ready && !FileMatches(v.base.value, image)))
  {
  }

  /** Opening a vault whose base can be vouched for leaves row, file and status as they were, whatever else fails. */
  lemma OpenKeepsAReadableBase(w: World, tempRemoved: bool, written: bool)
    requires !w.open && StatusIn(w).ReadyAt?
    ensures var up := Step(w, Open(tempRemoved, true, written));
      up.open && up.vault == w.vault && up.image == w.image && StatusIn(up) == StatusIn(w)
  {
  }

  /**
  When nothing fails to be written, opening records a base as lost exactly when it was, or when its file is
  missing, cannot be read or is another one; it keeps everything else, and a vault without a row has no file.
  */
  lemma OpenForgetsExactly(w: World, readable: bool)
    requires !w.open
    ensures var up := Step(w, Open(true, readable, true));
      && up.open && up.healthy && up.temp.None? && up.capture == w.capture && up.backups == w.backups
      && up.vault == w.vault.(base := up.vault.base)
      && (w.vault.base.None? ==> up.vault.base.None? && up.image.None?)
      && (w.vault.base.Some? ==>
            var row := w.vault.base.value;
            && up.image == w.image && up.vault.base.Some?
            && up.vault.base.value.baseSeq == row.baseSeq
            && (up.vault.base.value.state == NoBase && up.vault.base.value.digest.None? <==>
                  || (row.state == NoBase && row.digest.None?)
                  || (row.state == Ready && (!readable || !FileMatches(row, w.image))))
            && (!(row.state == Ready && (!readable || !FileMatches(row, w.image))) ==> up.vault.base.value == row))
  {
  }

  /** Where removing the temp file or the write fails, opening leaves row and file as they were. */
  lemma FailedOpenKeeps(w: World, tempRemoved: bool, readable: bool, written: bool)
    requires !w.open && !(tempRemoved && written)
    ensures var up := Step(w, Open(tempRemoved, readable, written));
      && up.open && up.vault == w.vault && up.image == w.image
      && up.temp == (if tempRemoved then None else w.temp)
  {
  }

  /**
  So once a vault of any run is opened, its recorded state is the truth that a push or a rebase may read: Ready
  for a base that is there, NoBase for one that is lost.
  */
  lemma OpenRecordsTheTruth(r: Run, n: nat)
    requires IsRun(r) && n < |r.events| && !r.states[n].open && r.events[n] == Open(true, true, true)
    ensures var up := r.states[n + 1];
      match StatusIn(up)
      case SyncOff => up.vault.base.None? && up.image.None?
      case ReadyAt(s) =>
        up.vault.base.Some? && up.vault.base.value.state == Ready && StatusIn(r.states[n]) == ReadyAt(s)
      case RebasingFrom(s) => up.vault.base.Some? && up.vault.base.value.state == Rebasing
      case Lost => up.vault.base.Some? && up.vault.base.value.state == NoBase && StatusIn(r.states[n]) == Lost
  {
    Invariant(r, n);
    assert r.states[n + 1] == Step(r.states[n], r.events[n]);
  }

  // ---------------------------------------------------------------------------------------------
  // Dying, degrading, backing up
  // ---------------------------------------------------------------------------------------------

  /** A crash closes the vault and ends the capture; what is committed stays, and at most an unsynced rename is lost. */
  lemma CrashLosesAtMostTheRename(w: World, renameLost: bool)
    ensures var dead := Step(w, Crash(renameLost));
      && !dead.open && dead.capture.Idle? && dead.unsynced.None?
      && dead.vault == w.vault && dead.file == w.file && dead.backups == w.backups
      && (renameLost && w.unsynced.Some? ==> dead.image == w.unsynced.value && dead.temp == w.image)
      && (!(renameLost && w.unsynced.Some?) ==> dead.image == w.image && dead.temp == w.temp)
  {
  }

  /** A degraded worker takes no command and lets no capture copy or seal until the vault is opened again. */
  lemma DegradedOnlyReads(w: World, command: Command, ok: bool, left: Option<Content>)
    requires w.open
    ensures var sick := Step(w, Degrade);
      && sick == w.(healthy := false)
      && Step(sick, Land(command)) == sick
      && (w.capture.Running? && w.capture.at == Vouched ==> Step(sick, Check(ok)).capture.Idle?)
      && (w.capture.Running? && w.capture.at == Hashed ==>
            Step(sick, Seal(ok, left)).capture.Idle? && Step(sick, Seal(ok, left)).vault == w.vault)
  {
  }

  /** A backup can be restored once the vault is closed, whatever was done to the vault since. */
  lemma BackupsAreRestored(w: World, later: World)
    requires !later.open && Step(w, Backup).backups <= later.backups
    ensures var restored := Step(later, Restore(w.vault));
      restored.vault == w.vault && restored.file == w.vault && restored.image == later.image && !restored.open
    ensures Step(w, Backup).vault == w.vault && Step(w, Backup).image == w.image && w.backups <= Step(w, Backup).backups
  {
    assert w.vault in Step(w, Backup).backups;
  }

  /** Folding the log changes nothing but the main file. */
  lemma CheckpointFolds(w: World)
    ensures Step(w, Checkpoint) == w.(file := if w.open then w.vault else w.file)
  {
  }
}
