/**
The base image protocol of crates/db-worker/src/base_image.rs.

Two objects are durable on their own: the `sync_base` row inside the vault and the file `base.db`
beside it. A capture runs in phases; commands, pushes and backups land between its steps, any step
can fail, the process can die at any point, an older vault can be restored and the file can be
replaced. `Step` is one atomic step of that system, a `Run` is any sequence of steps.
*/
module BaseImage {
  import opened Common

  type Command = nat

  /** The `sync_base.state` column. */
  datatype BaseState = NoBase | Ready | Rebasing

  /** The `sync_base` row. */
  datatype BaseRow = BaseRow(baseSeq: int, digest: Option<Digest>, state: BaseState)

  /** The committed vault: the command log, the unpushed log positions, the credentials, the base row. */
  datatype Vault = Vault(history: seq<Command>, outbox: set<nat>, secrets: set<nat>, base: Option<BaseRow>)

  /** What a file under `sync/` may hold. */
  datatype Content = Image(vault: Vault) | Damaged(tag: nat)

  /** SHA-256 as a free constructor: an injective function of the content. */
  datatype Digest = Sha256(of: Content)

  datatype Mode = Initialize | Advance

  /** Where a capture is. The writer lock is held at Checked, Folded, Sealing, Renamed and Synced. */
  datatype Point =
    | Gated | Recorded | Vouched
    | Checked | Folded | Copied
    | Stripped | Hashed
    | Sealing | Renamed | Synced

  datatype Capture =
    | Idle
    | Running(at: Point, mode: Mode, asked: int, recorded: Option<BaseRow>, really: Option<BaseState>,
              digest: Option<Digest>)

  datatype World = World(
    open: bool,                            // the process holds the vault
    healthy: bool,                         // WorkerState::Healthy
    vault: Vault,                          // what the database has committed
    file: Vault,                           // the main database file, without the frames still in the WAL
    temp: Option<Content>,                 // base.db.tmp
    image: Option<Content>,                // base.db
    unsynced: Option<Option<Content>>,     // base.db before a rename whose directory entry is not synced
    capture: Capture,
    backups: set<Vault>)

  datatype Event =
    | Land(command: Command)               // a local command commits
    | Push(op: nat)                        // an outbox command is accepted: its row goes
    | SetSecrets(secrets: set<nat>)
    | Checkpoint                           // SQLite folds the WAL on its own
    | Degrade                              // the worker leaves Healthy
    | Backup
    | Begin(mode: Mode, asked: int)        // take the gate
    | ReadRecord(ok: bool)
    | Vouch(readable: bool)
    | Check(ok: bool)
    | Fold(busy: bool)
    | Copy(ok: bool, left: Option<Content>)  // `left`: what a failed step and its cleanup leave as temp file
    | Strip(ok: bool, left: Option<Content>)
    | Hash(ok: bool, left: Option<Content>)
    | Seal(ok: bool, left: Option<Content>)
    | Rename(ok: bool, left: Option<Content>)
    | SyncDir(ok: bool)
    | Commit(ok: bool)
    | Crash(renameLost: bool)
    | Open(tempRemoved: bool, readable: bool, written: bool)
    | Restore(older: Vault)
    | Overwrite(content: Option<Content>)  // base.db is lost, damaged or replaced by anything
    | BeginSwap                            // a rebase swap marks the row

  // ---------------------------------------------------------------------------------------------
  // Reading the base
  // ---------------------------------------------------------------------------------------------

  /** `verify_base`: a Ready row counts only while the file hashes to the recorded digest. */
  function VerifyBase(row: BaseRow, image: Option<Content>, readable: bool): BaseState {
    if row.state != Ready then row.state
    else if row.digest.None? then NoBase
    else if readable && image.Some? && Sha256(image.value) == row.digest.value then Ready
    else NoBase
  }

  datatype Status = SyncOff | Lost | ReadyAt(baseSeq: int) | RebasingFrom(baseSeq: int)

  /** `status_of`, when the file can be read. */
  function StatusOf(vault: Vault, image: Option<Content>): Status {
    match vault.base
    case None => SyncOff
    case Some(row) =>
      match VerifyBase(row, image, true)
      case NoBase => Lost
      case Ready => ReadyAt(row.baseSeq)
      case Rebasing => RebasingFrom(row.baseSeq)
  }

  function StatusIn(w: World): Status { StatusOf(w.vault, w.image) }

  function StripSecrets(v: Vault): Vault { v.(secrets := {}) }

  /** Which captures phase 1 lets through, before it looks at the outbox. */
  predicate Admits(mode: Mode, asked: int, recorded: Option<BaseRow>, really: Option<BaseState>) {
    match mode
    case Initialize => really.None? || really.value == NoBase
    case Advance => recorded.Some? && really.Some? && really.value == Ready && recorded.value.baseSeq <= asked
  }

  predicate WriterHeld(c: Capture) {
    c.Running? && c.at in {Checked, Folded, Sealing, Renamed, Synced}
  }

  /** Whether another thread can take the writer lock now. */
  predicate Writable(w: World) { w.open && !WriterHeld(w.capture) }

  // ---------------------------------------------------------------------------------------------
  // Steps
  // ---------------------------------------------------------------------------------------------

  /** A local command: its outbox row is written in the same transaction, while a base row exists. */
  function LandCommand(v: Vault, command: Command): Vault {
    v.(history := v.history + [command],
       outbox := if v.base.Some? then v.outbox + {|v.history|} else v.outbox)
  }

  /** The steps of everything but the capture. A step that is not enabled changes nothing. */
  function OtherStep(w: World, e: Event): World {
    match e
    case Land(command) => if Writable(w) && w.healthy then w.(vault := LandCommand(w.vault, command)) else w
    case Push(op) => if Writable(w) then w.(vault := w.vault.(outbox := w.vault.outbox - {op})) else w
    case SetSecrets(secrets) => if Writable(w) then w.(vault := w.vault.(secrets := secrets)) else w
    case Checkpoint => if w.open then w.(file := w.vault) else w
    case Degrade => if w.open then w.(healthy := false) else w
    case Backup => w.(backups := w.backups + {w.vault})
    case Crash(renameLost) => CrashStep(w, renameLost)
    case Open(tempRemoved, readable, written) => OpenStep(w, tempRemoved, readable, written)
    case Restore(older) => if !w.open && older in w.backups then w.(vault := older, file := older) else w
    case Overwrite(content) => w.(image := content, unsynced := None)
    case BeginSwap =>
      if Writable(w) && w.vault.base.Some? && w.vault.base.value.state == Ready
      then w.(vault := w.vault.(base := Some(w.vault.base.value.(state := Rebasing)))) else w
    case _ => w
  }

  /** The committed vault survives a crash; a rename whose directory entry was not synced may not. */
  function CrashStep(w: World, renameLost: bool): World {
    var dead := w.(open := false, capture := Idle, unsynced := None);
    if renameLost && w.unsynced.Some? then dead.(image := w.unsynced.value, temp := w.image) else dead
  }

  /** `reconcile_base_image`, run on every open. */
  function OpenStep(w: World, tempRemoved: bool, readable: bool, written: bool): World {
    if w.open then w
    else
      var up := w.(open := true, healthy := true);
      if !tempRemoved then up
      else Reconciled(up.(temp := None), readable, written)
  }

  function Reconciled(w: World, readable: bool, written: bool): World {
    match w.vault.base
    case None => if written then w.(image := None, unsynced := None) else w
    case Some(row) =>
      if row.state == Ready && VerifyBase(row, w.image, readable) == NoBase && written
      then w.(vault := w.vault.(base := Some(Forgotten(row))))
      else w
  }

  /** The row of a base that is recorded as lost. */
  function Forgotten(row: BaseRow): BaseRow { row.(digest := None, state := NoBase) }

  /** The steps of the capture in flight. */
  function CaptureStep(w: World, e: Event): World {
    match e
    case Begin(mode, asked) =>
      if w.open && w.capture.Idle? && 0 <= asked
      then w.(capture := Running(Gated, mode, asked, None, None, None)) else w
    case _ => if w.capture.Idle? then w else PhaseStep(w, w.capture, e)
  }

  function PhaseStep(w: World, c: Capture, e: Event): World
    requires c.Running?
  {
    match (c.at, e)
    // Phase 0: read the row, then hash the file it vouches for, without the writer lock.
    case (Gated, ReadRecord(ok)) =>
      if ok then w.(capture := c.(at := Recorded, recorded := w.vault.base)) else w.(capture := Idle)
    case (Recorded, Vouch(readable)) =>
      w.(capture := c.(at := Vouched, really :=
        if c.recorded.None? then None else Some(VerifyBase(c.recorded.value, w.image, readable))))
    // Phase 1: check, fold the WAL and copy, in one hold of the writer lock.
    case (Vouched, Check(ok)) =>
      if ok && w.healthy && w.vault.base == c.recorded && Admits(c.mode, c.asked, c.recorded, c.really)
        && w.vault.outbox == {}
      then w.(capture := c.(at := Checked)) else w.(capture := Idle)
    case (Checked, Fold(busy)) => if busy then w.(capture := Idle) else w.(file := w.vault, capture := c.(at := Folded))
    case (Folded, Copy(ok, left)) =>
      if ok then w.(temp := Some(Image(w.file)), capture := c.(at := Copied)) else Abandon(w, left)
    // Phase 2: strip and hash the private copy, with the writer free.
    case (Copied, Strip(ok, left)) =>
      if ok && w.temp.Some? && w.temp.value.Image?
      then w.(temp := Some(Image(StripSecrets(w.temp.value.vault))), capture := c.(at := Stripped))
      else Abandon(w, left)
    case (Stripped, Hash(ok, left)) =>
      if ok && w.temp.Some? then w.(capture := c.(at := Hashed, digest := Some(Sha256(w.temp.value))))
      else Abandon(w, left)
    // Phase 3: write the row in a transaction, rename, sync the directory, commit.
    case (Hashed, Seal(ok, left)) =>
      if ok && w.healthy && w.vault.base == c.recorded then w.(capture := c.(at := Sealing)) else Abandon(w, left)
    case (Sealing, Rename(ok, left)) =>
      if ok && w.temp.Some?
      then w.(image := w.temp, temp := None,
              unsynced := if w.unsynced.Some? then w.unsynced else Some(w.image), capture := c.(at := Renamed))
      else Abandon(w, left)
    case (Renamed, SyncDir(ok)) => if ok then w.(unsynced := None, capture := c.(at := Synced)) else w.(capture := Idle)
    case (Synced, Commit(ok)) =>
      if ok then w.(vault := w.vault.(base := Some(BaseRow(c.asked, c.digest, Ready))), capture := Idle)
      else w.(capture := Idle)
    case _ => w
  }

  /** A capture that fails writes nothing but what its cleanup leaves of the temp file. */
  function Abandon(w: World, left: Option<Content>): World { w.(temp := left, capture := Idle) }

  predicate CaptureEvent(e: Event) {
    e.Begin? || e.ReadRecord? || e.Vouch? || e.Check? || e.Fold? || e.Copy? || e.Strip? || e.Hash? || e.Seal?
      || e.Rename? || e.SyncDir? || e.Commit?
  }

  function Step(w: World, e: Event): World {
    if CaptureEvent(e) then CaptureStep(w, e) else OtherStep(w, e)
  }

  // ---------------------------------------------------------------------------------------------
  // Runs
  // ---------------------------------------------------------------------------------------------

  datatype Run = Run(states: seq<World>, events: seq<Event>)

  /** A vault that never enabled Sync, with any history and any credentials. */
  predicate Initial(w: World) {
    w.open && w.vault.base.None? && w.vault.outbox == {} && w.capture.Idle? && w.unsynced.None? && w.backups == {}
  }

  ghost predicate Steps(r: Run) {
    && |r.states| == |r.events| + 1
    && forall i :: 0 <= i < |r.events| ==> r.states[i + 1] == Step(r.states[i], r.events[i])
  }

  ghost predicate IsRun(r: Run) { Steps(r) && Initial(r.states[0]) }

  /** Step `i` is a capture given `baseSeq` copying the committed vault while nothing is unpushed. */
  ghost predicate TakesAt(r: Run, i: int, img: Vault, baseSeq: int)
    requires Steps(r) && 0 <= i < |r.events|
  {
    var w := r.states[i];
    && w.capture.Running? && w.capture.at == Folded && w.capture.asked == baseSeq
    && r.events[i].Copy? && r.events[i].ok
    && w.vault.outbox == {} && img == StripSecrets(w.vault)
  }

  ghost predicate Taken(r: Run, n: nat, img: Vault, baseSeq: int)
    requires Steps(r) && n <= |r.events|
  {
    exists i :: 0 <= i < n && TakesAt(r, i, img, baseSeq)
  }

  /** `img` is an earlier instant of `v`, and nothing in it is still unpushed in `v`. */
  ghost predicate Earlier(img: Vault, v: Vault) {
    && img.history <= v.history
    && forall k :: k in v.outbox ==> |img.history| <= k < |v.history|
  }
}
