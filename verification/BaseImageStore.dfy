/**
The code of crates/db-worker/src/base_image.rs over its mutable state: one method for each stretch that
runs under one hold of a lock (or with none), each equal to the atomic steps of `BaseImage` it performs.
The outcomes of database and file calls are parameters; `left` is what a failed file operation and the
cleanup after it leave as temp file.
*/
module BaseImageStores {
  import opened Common
  import opened BaseImage

  datatype CaptureError =
    | SyncNotEnabled
    | BaseAlreadyExists
    | NoUsableBase(state: BaseState)
    | OutboxNotEmpty(pending: nat)
    | SeqWentBack(current: int, requested: int)
    | NegativeSeq
    | Failed                               // the database, the file system, or a record that moved

  /** The four atomic steps of phase 3. */
  function SealPhase(w: World, rowRead: bool, renamed: bool, synced: bool, committed: bool,
                     left: Option<Content>): World {
    Step(Step(Step(Step(w, Seal(rowRead, left)), Rename(renamed, left)), SyncDir(synced)), Commit(committed))
  }

  /** What they come to, outcome by outcome. */
  function SealOutcome(w: World, rowRead: bool, renamed: bool, synced: bool, committed: bool,
                       left: Option<Content>): World
    requires w.capture.Running?
  {
    if !(rowRead && w.healthy && w.vault.base == w.capture.recorded && renamed && w.temp.Some?) then Abandon(w, left)
    else
      var moved := w.(image := w.temp, temp := None, capture := Idle,
                      unsynced := if w.unsynced.Some? then w.unsynced else Some(w.image));
      if !synced then moved
      else if !committed then moved.(unsynced := None)
      else moved.(unsynced := None, vault := w.vault.(base := Some(BaseRow(w.capture.asked, w.capture.digest, Ready))))
  }

  lemma SealPhaseSpelled(w: World, rowRead: bool, renamed: bool, synced: bool, committed: bool, left: Option<Content>)
    requires w.capture.Running? && w.capture.at == Hashed
    ensures SealPhase(w, rowRead, renamed, synced, committed, left) ==
      SealOutcome(w, rowRead, renamed, synced, committed, left)
  {
    var moved := Step(Step(w, Seal(rowRead, left)), Rename(renamed, left));
    SealThenRename(w, rowRead, renamed, left);
    if moved.capture.Idle? {
      IdleStays(moved, SyncDir(synced), Commit(committed), Commit(committed));
    } else {
      SyncThenCommit(moved, synced, committed);
    }
  }

  /** The three atomic steps of phase 1. */
  function CopyPhase(w: World, rowRead: bool, busy: bool, copied: bool, left: Option<Content>): World {
    Step(Step(Step(w, Check(rowRead)), Fold(busy)), Copy(copied, left))
  }

  /** What they come to, outcome by outcome. */
  function CopyOutcome(w: World, rowRead: bool, busy: bool, copied: bool, left: Option<Content>): World
    requires w.capture.Running?
  {
    var c := w.capture;
    if busy || !(rowRead && w.healthy && w.vault.base == c.recorded && w.vault.outbox == {}
                 && Admits(c.mode, c.asked, c.recorded, c.really))
    then w.(capture := Idle)
    else if !copied then w.(file := w.vault, temp := left, capture := Idle)
    else w.(file := w.vault, temp := Some(Image(w.vault)), capture := c.(at := Copied))
  }

  lemma CopyPhaseSpelled(w: World, rowRead: bool, busy: bool, copied: bool, left: Option<Content>)
    requires w.capture.Running? && w.capture.at == Vouched
    ensures CopyPhase(w, rowRead, busy, copied, left) == CopyOutcome(w, rowRead, busy, copied, left)
  {
    var checked := Step(w, Check(rowRead));
    if checked.capture.Idle? {
      IdleStays(checked, Fold(busy), Copy(copied, left), Copy(copied, left));
    } else {
      var folded := Step(checked, Fold(busy));
      if folded.capture.Idle? { IdleStays(folded, Copy(copied, left), Copy(copied, left), Copy(copied, left)); }
    }
  }

  lemma SealThenRename(w: World, rowRead: bool, renamed: bool, left: Option<Content>)
    requires w.capture.Running? && w.capture.at == Hashed
    ensures Step(Step(w, Seal(rowRead, left)), Rename(renamed, left)) ==
      if !(rowRead && w.healthy && w.vault.base == w.capture.recorded && renamed && w.temp.Some?) then Abandon(w, left)
      else w.(image := w.temp, temp := None, capture := w.capture.(at := Renamed),
              unsynced := if w.unsynced.Some? then w.unsynced else Some(w.image))
  {
    var sealed := Step(w, Seal(rowRead, left));
    if sealed.capture.Idle? {
      IdleStays(sealed, Rename(renamed, left), Rename(renamed, left), Rename(renamed, left));
    }
  }

  lemma SyncThenCommit(w: World, synced: bool, committed: bool)
    requires w.capture.Running? && w.capture.at == Renamed
    ensures var end := Step(Step(w, SyncDir(synced)), Commit(committed));
      if !synced then end == w.(capture := Idle)
      else if !committed then end == w.(capture := Idle, unsynced := None)
      else end == w.(capture := Idle, unsynced := None,
                     vault := w.vault.(base := Some(BaseRow(w.capture.asked, w.capture.digest, Ready))))
  {
    var s := Step(w, SyncDir(synced));
    if s.capture.Idle? {
      IdleStays(s, Commit(committed), Commit(committed), Commit(committed));
    }
  }

  lemma IdleStays(w: World, e1: Event, e2: Event, e3: Event)
    requires w.capture.Idle?
    requires CaptureEvent(e1) && CaptureEvent(e2) && CaptureEvent(e3) && !e1.Begin? && !e2.Begin? && !e3.Begin?
    ensures Step(Step(Step(w, e1), e2), e3) == w
    ensures Step(Step(w, e1), e2) == w && Step(w, e1) == w
  {
  }

  class BaseImageStore {
    var open: bool
    var healthy: bool
    var vault: Vault
    var file: Vault
    var temp: Option<Content>
    var image: Option<Content>
    ghost var unsynced: Option<Option<Content>>
    ghost var capture: Capture
    ghost var backups: set<Vault>

    constructor (history: seq<Command>, secrets: set<nat>)
      ensures Initial(View()) && vault.history == history && vault.secrets == secrets && image.None?
    {
      open, healthy := true, true;
      vault := Vault(history, {}, secrets, None);
      file := Vault(history, {}, secrets, None);
      temp, image, unsynced, capture, backups := None, None, None, Idle, {};
    }

    ghost function View(): World
      reads this
    {
      World(open, healthy, vault, file, temp, image, unsynced, capture, backups)
    }

    /** The guard and the gate at the head of `capture_base_image`. */
    method TakeGate(mode: Mode, asked: int) returns (error: Option<CaptureError>)
      requires open && capture.Idle?
      modifies this`capture
      ensures View() == Step(old(View()), Begin(mode, asked))
      ensures error == if asked < 0 then Some(NegativeSeq) else None
    {
      if asked < 0 {
        return Some(NegativeSeq);
      }
      capture := Running(Gated, mode, asked, None, None, None);
      return None;
    }

    /** Phase 0, the read of the record. */
    method ReadBaseRow(rowRead: bool) returns (recorded: Option<BaseRow>)
      requires capture.Running? && capture.at == Gated
      modifies this`capture
      ensures View() == Step(old(View()), ReadRecord(rowRead))
      ensures rowRead ==> recorded == vault.base
    {
      recorded := vault.base;
      capture := if rowRead then capture.(at := Recorded, recorded := recorded) else Idle;
    }

    /** Phase 0, hashing the recorded base with the writer free. */
    method VouchForRecorded(recorded: Option<BaseRow>, readable: bool) returns (really: Option<BaseState>)
      requires capture.Running? && capture.at == Recorded && capture.recorded == recorded
      modifies this`capture
      ensures View() == Step(old(View()), Vouch(readable))
      ensures capture.Running? && capture.really == really
      ensures really.None? <==> recorded.None?
      ensures really == Some(Ready) ==> image.Some? && recorded.value.digest == Some(Sha256(image.value))
    {
      really := None;
      if recorded.Some? {
        really := Some(VerifyBase(recorded.value, image, readable));
      }
      capture := capture.(at := Vouched, really := really);
    }

    /** Phase 1: the checks, the checkpoint and the copy, in one hold of the writer lock. */
    method CheckAndCopy(mode: Mode, asked: int, recorded: Option<BaseRow>, really: Option<BaseState>,
                        rowRead: bool, busy: bool, copied: bool, left: Option<Content>)
      returns (error: Option<CaptureError>)
      requires capture == Running(Vouched, mode, asked, recorded, really, None)
      requires really.None? <==> recorded.None?
      modifies this`file, this`temp, this`capture
      ensures View() == CopyOutcome(old(View()), rowRead, busy, copied, left)
      ensures error.None? <==> capture.Running?
      ensures error.None? ==> temp == Some(Image(vault)) && vault.outbox == {} && file == vault
      ensures rowRead && healthy && vault.base == recorded ==>
        && (error == Some(BaseAlreadyExists) <==> mode == Initialize && really.Some? && really.value != NoBase)
        && (error == Some(SyncNotEnabled) <==> mode == Advance && recorded.None?)
        && ((exists state :: error == Some(NoUsableBase(state))) <==>
          mode == Advance && recorded.Some? && really.value != Ready)
        && ((exists c, q :: error == Some(SeqWentBack(c, q))) <==>
            mode == Advance && really == Some(Ready) && asked < recorded.value.baseSeq)
        && (Admits(mode, asked, recorded, really) && vault.outbox != {} ==>
          error == Some(OutboxNotEmpty(|vault.outbox|)))
    {
      if !rowRead || !healthy || vault.base != recorded {
        capture := Idle;
        return Some(Failed);
      }
      var refused: Option<CaptureError> := None;
      match mode {
        case Initialize =>
          if really.Some? && really.value != NoBase {
            refused := Some(BaseAlreadyExists);
          }
        case Advance =>
          if recorded.None? {
            refused := Some(SyncNotEnabled);
          } else if really.value != Ready {
            refused := Some(NoUsableBase(really.value));
          } else if asked < recorded.value.baseSeq {
            refused := Some(SeqWentBack(recorded.value.baseSeq, asked));
          }
      }
      if refused.Some? {
        capture := Idle;
        return refused;
      }
      if vault.outbox != {} {
        capture := Idle;
        return Some(OutboxNotEmpty(|vault.outbox|));
      }
      if busy {
        capture := Idle;
        return Some(Failed);
      }
      file := vault;
      if !copied {
        temp := left;
        capture := Idle;
        return Some(Failed);
      }
      temp := Some(Image(file));
      capture := capture.(at := Copied);
      return None;
    }

    /** Phase 2: strip and hash the private copy, with no lock. */
    method StripAndHash(stripped: bool, hashed: bool, left: Option<Content>) returns (digest: Option<Digest>)
      requires capture.Running? && capture.at == Copied
      modifies this`temp, this`capture
      ensures View() == Step(Step(old(View()), Strip(stripped, left)), Hash(hashed, left))
      ensures digest.Some? ==>
        && temp.Some? && temp.value.Image? && temp.value.vault.secrets == {} && digest == Some(Sha256(temp.value))
        && capture == old(capture).(at := Hashed, digest := digest)
    {
      if !stripped || temp.None? || !temp.value.Image? {
        temp := left;
        capture := Idle;
        return None;
      }
      temp := Some(Image(StripSecrets(temp.value.vault)));
      if !hashed {
        temp := left;
        capture := Idle;
        return None;
      }
      digest := Some(Sha256(temp.value));
      capture := capture.(at := Hashed, digest := digest);
    }

    /** Phase 3: the record and the file are put in place under the writer lock; the commit comes last. */
    method SealCapture(asked: int, recorded: Option<BaseRow>, digest: Digest,
                       rowRead: bool, renamed: bool, synced: bool, committed: bool, left: Option<Content>)
      returns (ok: bool)
      requires capture.Running? && capture.at == Hashed && capture.asked == asked
      requires capture.recorded == recorded && capture.digest == Some(digest)
      modifies this
      ensures View() == SealOutcome(old(View()), rowRead, renamed, synced, committed, left)
      ensures ok ==> vault.base == Some(BaseRow(asked, Some(digest), Ready)) && image == old(temp)
      ensures !ok ==> vault.base == old(vault.base)
      ensures vault.(base := None) == old(vault).(base := None)
    {
      if !rowRead || !healthy || vault.base != recorded {
        temp, capture := left, Idle;
        return false;
      }
      // The row is written inside a transaction that commits only after the rename.
      var row := BaseRow(asked, Some(digest), Ready);
      if !renamed || temp.None? {
        temp, capture := left, Idle;
        return false;
      }
      if unsynced.None? {
        unsynced := Some(image);
      }
      image := temp;
      temp := None;
      capture := Idle;
      if !synced {
        return false;
      }
      unsynced := None;
      if committed {
        vault := vault.(base := Some(row));
      }
      return committed;
    }

    /** `base_image_status`. */
    method BaseImageStatus() returns (status: Status)
      ensures status == StatusIn(View())
    {
      if vault.base.None? {
        return SyncOff;
      }
      match VerifyBase(vault.base.value, image, true) {
        case NoBase => return Lost;
        case Ready => return ReadyAt(vault.base.value.baseSeq);
        case Rebasing => return RebasingFrom(vault.base.value.baseSeq);
      }
    }

    /** The open of the vault, with `reconcile_base_image`; an error there never blocks the open. */
    method OpenVault(tempRemoved: bool, readable: bool, written: bool)
      requires !open
      modifies this
      ensures View() == Step(old(View()), BaseImage.Open(tempRemoved, readable, written))
      ensures tempRemoved ==> temp.None?
    {
      open, healthy := true, true;
      if !tempRemoved {
        return;
      }
      temp := None;
      if vault.base.None? {
        if written {
          image, unsynced := None, None;
        }
      } else if vault.base.value.state == Ready {
        if VerifyBase(vault.base.value, image, readable) == NoBase && written {
          vault := vault.(base := Some(Forgotten(vault.base.value)));
        }
      }
    }
  }
}
