/**
 One critical section of a Store: how loading, fencing, saving and registering move the shared
 directory and the Store's own view of it, with every file operation free to fail.

 Disk.indexExposed is the set of index contents a power loss may leave behind: everything the path
 has named since the last successful fsync of the directory. The fence file has its own such set.
 */
module StoreSteps {
  import opened Wrappers
  import opened IndexModel
  import opened Registration

  const W2_SET_V1 := "w2-set-v1"

  datatype FenceFile =
    | NoFence
    | GarbledFence(bytes: string)
    | Fence(profile: string, epoch: int, indexSchemaVersion: int, activatedAt: nat, claimedAt: nat)

  datatype Disk = Disk(
    index: Content,
    indexExposed: set<Content>,
    fence: FenceFile,
    fenceExposed: set<FenceFile>)

  /**
   A Store's memory. `pending` is bookkeeping of the model: the ordinary writes already applied to
   idx that no save has put on disk yet.
   */
  datatype View = View(
    idx: Index,
    generation: Content,
    epoch: int,
    committed: bool,
    uncertain: bool,
    pending: seq<Write>)

  /** Which file operations of one critical section succeed. */
  datatype Io = Io(
    lock: bool,
    readFence: bool,
    readSchema: bool,
    readForClaim: bool,
    replaceFence: bool,
    syncFence: bool,
    readGeneration: bool,
    readForRefresh: bool,
    replaceForRepair: bool,
    syncForRepair: bool,
    replaceIndex: bool,
    syncIndex: bool)

  datatype StoreError =
    | LockFailed
    | ReadFailed
    | ParseFailed
    | NewerSchema
    | Fenced
    | FenceNotClaimed
    | FencedAndReloaded
    | NotPersisted
    | PersistedNotDurable

  datatype Outcome = Outcome(disk: Disk, view: View, error: Option<StoreError>)

  /** A successful fsync of the directory makes both visible entries the only crash outcomes. */
  function Synced(d: Disk): Disk {
    d.(indexExposed := {d.index}, fenceExposed := {d.fence})
  }

  // ── load and persist ────────────────────────────────────────────────────────

  /** load(): replace memory by the file, or leave memory alone and say why not. */
  function Load(d: Disk, v: View, readOk: bool): Outcome {
    if !readOk then Outcome(d, v, Some(ReadFailed))
    else if d.index.Unparsable? then Outcome(d, v, Some(ParseFailed))
    else if !Loadable(d.index) then Outcome(d, v, Some(NewerSchema))
    else Outcome(d, v.(idx := Base(d.index), generation := d.index, pending := []), None)
  }

  /** persistLocked(): stamp, write a temp file, rename, fsync the directory. */
  function Persist(d: Disk, v: View, replaceOk: bool, syncOk: bool): Outcome {
    var stamped := v.(idx := Stamp(v.idx));
    if !replaceOk then Outcome(d, stamped, Some(NotPersisted))
    else
      var c := File(stamped.idx);
      var renamed := d.(index := c, indexExposed := d.indexExposed + {c});
      var current := stamped.(generation := c, pending := []);
      if !syncOk then Outcome(renamed, current, Some(PersistedNotDurable))
      else Outcome(Synced(renamed), current, None)
  }

  // ── the writer fence ────────────────────────────────────────────────────────

  predicate FenceSupported(f: FenceFile) {
    f.Fence? ==> f.profile == W2_SET_V1 && f.indexSchemaVersion <= SCHEMA_VERSION
  }

  function NextFence(f: FenceFile, now: nat): FenceFile {
    Fence(W2_SET_V1,
          if f.Fence? then f.epoch + 1 else 1,
          SCHEMA_VERSION,
          if f.Fence? && f.activatedAt != 0 then f.activatedAt else now,
          now)
  }

  /** Taking over: refresh memory first, then replace the fence durably. */
  function Claim(d: Disk, v: View, now: nat, io: Io): Outcome {
    var loaded := Load(d, v, io.readForClaim);
    if loaded.error.Some? then loaded
    else if !io.replaceFence then Outcome(d, loaded.view, Some(FenceNotClaimed))
    else
      var next := NextFence(d.fence, now);
      var renamed := d.(fence := next, fenceExposed := d.fenceExposed + {next});
      if !io.syncFence then Outcome(renamed, loaded.view, Some(FenceNotClaimed))
      else Outcome(Synced(renamed), loaded.view.(epoch := next.epoch), None)
  }

  /** ensureToolFunctionWriterLocked(): verify this Store's epoch, or claim one. */
  function EnsureWriter(d: Disk, v: View, now: nat, io: Io): Outcome {
    if !io.readFence then Outcome(d, v, Some(ReadFailed))
    else if d.fence.GarbledFence? then Outcome(d, v, Some(ParseFailed))
    else if !FenceSupported(d.fence) then Outcome(d, v, Some(Fenced))
    else if v.epoch == 0 then Claim(d, v, now, io)
    else if !d.fence.Fence? || d.fence.epoch != v.epoch then Outcome(d, v, Some(Fenced))
    else if !v.committed || (io.readSchema && d.index.Absent?) then Outcome(d, v, None)
    else if !io.readSchema then Outcome(d, v, Some(ReadFailed))
    else if d.index.Unparsable? then Outcome(d, v, Some(ParseFailed))
    else if d.index.index.schemaVersion < SCHEMA_VERSION then Outcome(d, v, Some(Fenced))
    else Outcome(d, v, None)
  }

  /** beginToolFunctionWriteLocked(): own the epoch, then refresh a stale view. */
  function BeginWrite(d: Disk, v: View, now: nat, io: Io): Outcome {
    var owned := EnsureWriter(d, v, now, io);
    if owned.error.Some? then owned
    else if !io.readGeneration then Outcome(owned.disk, owned.view, Some(ReadFailed))
    else if owned.disk.index == owned.view.generation then owned
    else Load(owned.disk, owned.view, io.readForRefresh)
  }

  // ── ordinary writes ─────────────────────────────────────────────────────────

  /** save(): refused by a superseded epoch, and by a file that moved under this Store. */
  function Save(d: Disk, v: View, now: nat, io: Io): Outcome {
    if !io.lock then Outcome(d, v, Some(LockFailed))
    else
      var owned := if v.epoch != 0 then EnsureWriter(d, v, now, io) else Outcome(d, v, None);
      if owned.error.Some? then owned
      else if !io.readGeneration then Outcome(d, v, Some(ReadFailed))
      else if d.index == v.generation then Persist(d, v, io.replaceIndex, io.syncIndex)
      else
        var reloaded := Load(d, v, io.readForRefresh);
        if reloaded.error.Some? then reloaded else reloaded.(error := Some(FencedAndReloaded))
  }

  datatype WriteResult = Rejected | Done | Failed(error: StoreError)

  datatype WriteOutcome = WriteOutcome(disk: Disk, view: View, result: WriteResult)

  /** A failure after which memory holds the mutation and the file does not. */
  predicate LeavesMutationBehind(e: StoreError) {
    e != PersistedNotDurable && e != FencedAndReloaded
  }

  /**
   A public ordinary write: check, mutate memory, save. Only AppendToolImageRecord takes its
   mutation back when nothing reached the file; the others leave it in memory.
   */
  function OrdinaryWrite(d: Disk, v: View, w: Write, now: nat, io: Io): WriteOutcome {
    if !Accepts(v.idx, w) then WriteOutcome(d, v, Rejected)
    else
      var saved := Save(d, v.(idx := Mutate(v.idx, w), pending := v.pending + [w]), now, io);
      match saved.error
      case None => WriteOutcome(saved.disk, saved.view, Done)
      case Some(e) =>
        if w.AppendToolImageRecord? && LeavesMutationBehind(e) then
          var undone := saved.view.(
            idx := saved.view.idx.(imageRecords := v.idx.imageRecords),
            pending := v.pending);
          WriteOutcome(saved.disk, undone, Failed(e))
        else WriteOutcome(saved.disk, saved.view, Failed(e))
  }

  // ── registration ────────────────────────────────────────────────────────────

  datatype RegisterError = StoreRefused(error: StoreError) | RequestRefused(why: Refusal)

  datatype Registered = Registered(stored: RegisteredToolFunction, created: bool)

  datatype RegisterOutcome = RegisterOutcome(disk: Disk, view: View, result: Result<Registered, RegisterError>)

  /** Re-save before acknowledging anything while an earlier rename may not be durable. */
  function Repair(d: Disk, v: View, io: Io): Outcome {
    if !v.uncertain then Outcome(d, v, None)
    else
      var saved := Persist(d, v, io.replaceForRepair, io.syncForRepair);
      if saved.error.Some? then saved else saved.(view := saved.view.(uncertain := false))
  }

  /** Persist one accepted addition; a failure before the rename leaves no trace in memory. */
  function Commit(d: Disk, v: View, a: Addition, io: Io): Outcome {
    var saved := Persist(d, v.(idx := Add(v.idx, a)), io.replaceIndex, io.syncIndex);
    match saved.error
    case None => saved.(view := saved.view.(committed := true))
    case Some(PersistedNotDurable) => saved.(view := saved.view.(committed := true, uncertain := true))
    case Some(_) => saved.(view := v.(idx := Stamp(v.idx)))
  }

  /** The state in which a registration decides: lock held, epoch owned, view fresh, file durable. */
  function Prepare(d: Disk, v: View, now: nat, io: Io): Outcome {
    if !io.lock then Outcome(d, v, Some(LockFailed))
    else
      var begun := BeginWrite(d, v, now, io);
      if begun.error.Some? then begun else Repair(begun.disk, begun.view, io)
  }

  /** The registration once prepared: decide, and persist what the decision adds. */
  function Settle(d: Disk, v: View, op: Operation, rec: RegisteredToolFunction,
                  rev: Option<PresentationRevision>, now: nat, io: Io): Outcome
  {
    var decision := Decide(v.idx, op, rec);
    if decision.Reuse? || decision.Create? then Commit(d, v, AdditionOf(decision, op, rec, rev, now), io)
    else Outcome(d, v, None)
  }

  function Answer(decision: Decision, op: Operation, rec: RegisteredToolFunction, now: nat, error: Option<StoreError>)
    : Result<Registered, RegisterError>
  {
    if decision.Refuse? then Err(RequestRefused(decision.why))
    else if error.Some? then Err(StoreRefused(error.value))
    else Ok(Registered(Stored(decision, op, rec, now), decision.Create?))
  }

  /** RegisterToolFunctionAtomic. */
  function Register(d: Disk, v: View, op: Operation, rec: RegisteredToolFunction,
                    rev: Option<PresentationRevision>, now: nat, io: Io): RegisterOutcome
  {
    if !op.Complete() then RegisterOutcome(d, v, Err(RequestRefused(IncompleteOperation)))
    else
      var ready := Prepare(d, v, now, io);
      if ready.error.Some? then RegisterOutcome(ready.disk, ready.view, Err(StoreRefused(ready.error.value)))
      else
        var saved := Settle(ready.disk, ready.view, op, rec, rev, now, io);
        RegisterOutcome(saved.disk, saved.view, Answer(Decide(ready.view.idx, op, rec), op, rec, now, saved.error))
  }
}
