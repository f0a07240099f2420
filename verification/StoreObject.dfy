/**
 The Store as the object it is: one process's memory over a shared directory, updated in place.
 Every method is proved against the step function of the same name in StoreSteps, so the theorems of
 StoreTheorems are about what these methods do.
 */
module StoreObject {
  import opened Wrappers
  import opened IndexModel
  import opened Registration
  import opened StoreSteps

  /** The index directory. The exposed sets are what a power loss may leave, not stored state. */
  class Directory {
    var index: Content
    var fence: FenceFile
    ghost var indexExposed: set<Content>
    ghost var fenceExposed: set<FenceFile>

    ghost function Value(): Disk
      reads this
    {
      Disk(index, indexExposed, fence, fenceExposed)
    }

    constructor (index: Content, fence: FenceFile)
      ensures Value() == Disk(index, {index}, fence, {fence})
    {
      this.index, this.fence := index, fence;
      indexExposed, fenceExposed := {index}, {fence};
    }

    method RenameIndex(c: Content)
      modifies this
      ensures Value() == old(Value()).(index := c, indexExposed := old(indexExposed) + {c})
    {
      index := c;
      indexExposed := indexExposed + {c};
    }

    method RenameFence(f: FenceFile)
      modifies this
      ensures Value() == old(Value()).(fence := f, fenceExposed := old(fenceExposed) + {f})
    {
      fence := f;
      fenceExposed := fenceExposed + {f};
    }

    method Fsync()
      modifies this
      ensures Value() == Synced(old(Value()))
    {
      indexExposed, fenceExposed := {index}, {fence};
    }
  }

  class Store {
    const dir: Directory
    var idx: Index
    var generation: Content
    var writerEpoch: int
    var writerCommitted: bool
    var durabilityUncertain: bool
    ghost var pending: seq<Write>

    ghost function View(): View
      reads this
    {
      StoreSteps.View(idx, generation, writerEpoch, writerCommitted, durabilityUncertain, pending)
    }

    /** The two objects now hold what a step function says, and the caller learns its error. */
    ghost predicate Holds(out: Outcome, error: Option<StoreError>)
      reads this, dir
    {
      dir.Value() == out.disk && View() == out.view && error == out.error
    }

    /** NewAt: load, then the startup fsync. Either failure leaves no usable Store. */
    constructor (dir: Directory)
      ensures this.dir == dir
      ensures View() == StoreSteps.View(EMPTY_INDEX, Absent, 0, false, false, [])
    {
      this.dir := dir;
      idx, generation := EMPTY_INDEX, Absent;
      writerEpoch, writerCommitted, durabilityUncertain := 0, false, false;
      pending := [];
    }

    method Open(readOk: bool, syncOk: bool) returns (error: Option<StoreError>)
      modifies this, dir
      ensures var loaded := StoreSteps.Load(old(dir.Value()), old(View()), readOk);
              && View() == loaded.view
              && (error.None? <==> loaded.error.None? && syncOk)
              && dir.Value() == (if error.None? then Synced(old(dir.Value())) else old(dir.Value()))
    {
      error := Load(readOk);
      if error.None? {
        if syncOk {
          dir.Fsync();
        } else {
          error := Some(PersistedNotDurable);
        }
      }
    }

    // ── load and persist ──────────────────────────────────────────────────────

    method Load(readOk: bool) returns (error: Option<StoreError>)
      modifies this
      ensures dir.Value() == old(dir.Value())
      ensures Holds(StoreSteps.Load(old(dir.Value()), old(View()), readOk), error)
    {
      if !readOk {
        return Some(ReadFailed);
      }
      match dir.index
      case Absent =>
        idx, generation, pending := EMPTY_INDEX, Absent, [];
        return None;
      case Unparsable(_) =>
        return Some(ParseFailed);
      case File(f) =>
        if f.schemaVersion > SCHEMA_VERSION {
          return Some(NewerSchema);
        }
        idx, generation, pending := f, dir.index, [];
        return None;
    }

    method PersistLocked(replaceOk: bool, syncOk: bool) returns (error: Option<StoreError>)
      modifies this, dir
      ensures Holds(Persist(old(dir.Value()), old(View()), replaceOk, syncOk), error)
    {
      idx := idx.(schemaVersion := SCHEMA_VERSION);
      if !replaceOk {
        return Some(NotPersisted);
      }
      dir.RenameIndex(File(idx));
      generation, pending := File(idx), [];
      if !syncOk {
        return Some(PersistedNotDurable);
      }
      dir.Fsync();
      return None;
    }

    // ── the writer fence ──────────────────────────────────────────────────────

    method EnsureToolFunctionWriterLocked(now: nat, io: Io) returns (error: Option<StoreError>)
      modifies this, dir
      ensures Holds(EnsureWriter(old(dir.Value()), old(View()), now, io), error)
    {
      if !io.readFence {
        return Some(ReadFailed);
      }
      var fence := dir.fence;
      if fence.GarbledFence? {
        return Some(ParseFailed);
      }
      if fence.Fence? {
        if fence.profile != W2_SET_V1 || fence.indexSchemaVersion > SCHEMA_VERSION {
          return Some(Fenced);
        }
      }
      if writerEpoch != 0 {
        if !fence.Fence? || fence.epoch != writerEpoch {
          return Some(Fenced);
        }
        if writerCommitted {
          if !io.readSchema {
            return Some(ReadFailed);
          }
          if dir.index.Unparsable? {
            return Some(ParseFailed);
          }
          if dir.index.File? && dir.index.index.schemaVersion < SCHEMA_VERSION {
            return Some(Fenced);
          }
        }
        return None;
      }
      error := Load(io.readForClaim);
      if error.Some? {
        return;
      }
      var next := Fence(W2_SET_V1, 1, SCHEMA_VERSION, now, now);
      if fence.Fence? {
        next := next.(epoch := fence.epoch + 1);
        if fence.activatedAt != 0 {
          next := next.(activatedAt := fence.activatedAt);
        }
      }
      if !io.replaceFence {
        return Some(FenceNotClaimed);
      }
      dir.RenameFence(next);
      if !io.syncFence {
        return Some(FenceNotClaimed);
      }
      dir.Fsync();
      writerEpoch := next.epoch;
      return None;
    }

    method BeginToolFunctionWriteLocked(now: nat, io: Io) returns (error: Option<StoreError>)
      modifies this, dir
      ensures Holds(BeginWrite(old(dir.Value()), old(View()), now, io), error)
    {
      error := EnsureToolFunctionWriterLocked(now, io);
      if error.Some? {
        return;
      }
      if !io.readGeneration {
        return Some(ReadFailed);
      }
      if dir.index != generation {
        error := Load(io.readForRefresh);
      }
    }

    // ── ordinary writes ───────────────────────────────────────────────────────

    method Save(now: nat, io: Io) returns (error: Option<StoreError>)
      modifies this, dir
      ensures Holds(StoreSteps.Save(old(dir.Value()), old(View()), now, io), error)
    {
      if !io.lock {
        return Some(LockFailed);
      }
      if writerEpoch != 0 {
        error := EnsureToolFunctionWriterLocked(now, io);
        if error.Some? {
          return;
        }
      }
      if !io.readGeneration {
        return Some(ReadFailed);
      }
      if dir.index != generation {
        error := Load(io.readForRefresh);
        if error.None? {
          error := Some(FencedAndReloaded);
        }
        return;
      }
      error := PersistLocked(io.replaceIndex, io.syncIndex);
    }

    ghost predicate Wrote(out: WriteOutcome, result: WriteResult)
      reads this, dir
    {
      dir.Value() == out.disk && View() == out.view && result == out.result
    }

    method FindIndex(casHash: string) returns (at: Option<nat>)
      ensures at == FindEntry(idx.entries, casHash)
    {
      var i := 0;
      while i < |idx.entries|
        invariant 0 <= i <= |idx.entries|
        invariant forall k :: 0 <= k < i ==> idx.entries[k].casHash != casHash
      {
        if idx.entries[i].casHash == casHash {
          FindEntryIs(idx.entries, casHash, i);
          return Some(i);
        }
        i := i + 1;
      }
      return None;
    }

    method Append(e: Entry, now: nat, io: Io) returns (result: WriteResult)
      modifies this, dir
      ensures Wrote(OrdinaryWrite(old(dir.Value()), old(View()), AppendEntry(e, now), now, io), result)
    {
      if e.casHash == "" {
        return Rejected;
      }
      var at := FindIndex(e.casHash);
      if at.Some? {
        return Rejected;
      }
      var stored := e;
      if stored.registeredAt == 0 { stored := stored.(registeredAt := now); }
      if stored.lifecycleUpdatedAt == 0 { stored := stored.(lifecycleUpdatedAt := now); }
      if stored.healthCheckedAt == 0 { stored := stored.(healthCheckedAt := now); }
      idx := idx.(entries := idx.entries + [stored]);
      pending := pending + [AppendEntry(e, now)];
      var error := Save(now, io);
      return if error.None? then Done else Failed(error.value);
    }

    method SetLifecyclePhase(casHash: string, phase: LifecyclePhase, now: nat, io: Io) returns (result: WriteResult)
      modifies this, dir
      ensures Wrote(OrdinaryWrite(old(dir.Value()), old(View()),
                                  IndexModel.SetLifecyclePhase(casHash, phase, now), now, io), result)
    {
      var at := FindIndex(casHash);
      if at.None? || !LifecycleEdge(idx.entries[at.value].lifecyclePhase, phase) {
        return Rejected;
      }
      var e := idx.entries[at.value];
      idx := idx.(entries := idx.entries[at.value := e.(lifecyclePhase := phase, lifecycleUpdatedAt := now)]);
      pending := pending + [IndexModel.SetLifecyclePhase(casHash, phase, now)];
      var error := Save(now, io);
      return if error.None? then Done else Failed(error.value);
    }

    method CompareAndSetIntegrityHealth(casHash: string, expected: IntegrityHealth, health: IntegrityHealth,
                                        now: nat, io: Io) returns (result: WriteResult)
      modifies this, dir
      ensures Wrote(OrdinaryWrite(old(dir.Value()), old(View()),
                IndexModel.CompareAndSetIntegrityHealth(casHash, expected, health, now), now, io), result)
    {
      var at := FindIndex(casHash);
      if at.None? || idx.entries[at.value].integrityHealth != expected {
        return Rejected;
      }
      var e := idx.entries[at.value];
      idx := idx.(entries := idx.entries[at.value := e.(integrityHealth := health, healthCheckedAt := now)]);
      pending := pending + [IndexModel.CompareAndSetIntegrityHealth(casHash, expected, health, now)];
      var error := Save(now, io);
      return if error.None? then Done else Failed(error.value);
    }

    /** The one ordinary write that takes its mutation back when the file was not touched. */
    method AppendToolImageRecord(r: ToolImageRecord, now: nat, io: Io) returns (result: WriteResult)
      modifies this, dir
      ensures Wrote(OrdinaryWrite(old(dir.Value()), old(View()),
                                  IndexModel.AppendToolImageRecord(r, now), now, io), result)
    {
      if r.imageDigest == "" {
        return Rejected;
      }
      var i := 0;
      while i < |idx.imageRecords|
        invariant 0 <= i <= |idx.imageRecords|
        invariant forall k :: 0 <= k < i ==>
          !(idx.imageRecords[k].imageDigest == r.imageDigest && idx.imageRecords[k].buildID == r.buildID)
      {
        if idx.imageRecords[i].imageDigest == r.imageDigest && idx.imageRecords[i].buildID == r.buildID {
          return Rejected;
        }
        i := i + 1;
      }
      var stored := r;
      if stored.pushedAt == 0 { stored := stored.(pushedAt := now); }
      var imgLen := |idx.imageRecords|;
      ghost var unsaved := pending;
      idx := idx.(imageRecords := idx.imageRecords + [stored]);
      pending := pending + [IndexModel.AppendToolImageRecord(r, now)];
      ghost var mid := View();
      var error := Save(now, io);
      if error.None? {
        return Done;
      }
      if error.value != PersistedNotDurable && error.value != FencedAndReloaded {
        FailedSaveKeepsImages(old(dir.Value()), mid, now, io);
        idx := idx.(imageRecords := idx.imageRecords[..imgLen]);
        pending := unsaved;
      }
      return Failed(error.value);
    }

    // ── registration ──────────────────────────────────────────────────────────

    method FindToolFunctionRequestLocked(requestID: string) returns (at: Option<nat>)
      ensures at == FindReceipt(idx.receipts, requestID)
    {
      if requestID == "" {
        return None;
      }
      var i := 0;
      while i < |idx.receipts|
        invariant 0 <= i <= |idx.receipts|
        invariant forall k :: 0 <= k < i ==> idx.receipts[k].requestID != requestID
      {
        if idx.receipts[i].requestID == requestID {
          FindReceiptIs(idx.receipts, requestID, i);
          return Some(i);
        }
        i := i + 1;
      }
      return None;
    }

    method FindToolFunctionLocked(casHash: string) returns (at: Option<nat>)
      ensures at == FindFunction(idx.toolFunctions, casHash)
    {
      var i := 0;
      while i < |idx.toolFunctions|
        invariant 0 <= i <= |idx.toolFunctions|
        invariant forall k :: 0 <= k < i ==> idx.toolFunctions[k].casHash != casHash
      {
        if idx.toolFunctions[i].casHash == casHash {
          FindFunctionIs(idx.toolFunctions, casHash, i);
          return Some(i);
        }
        i := i + 1;
      }
      return None;
    }

    method CheckToolFunctionEnvelopeLocked(op: Operation, digest: string) returns (refusal: Option<Refusal>)
      ensures refusal == EnvelopeCheck(idx, op, digest)
    {
      if digest == "" {
        return None;
      }
      var want := op.requestBasis;
      if !want.Basis? {
        return Some(UnreadableBasis);
      }
      var i := 0;
      while i < |idx.toolFunctions|
        invariant 0 <= i <= |idx.toolFunctions|
        invariant EnvelopeCheckFrom(idx, want, digest, 0) == EnvelopeCheckFrom(idx, want, digest, i)
      {
        var existing := idx.toolFunctions[i];
        if existing.toolFunctionDigest == digest {
          var at := FindToolFunctionRequestLocked(existing.requestID);
          if existing.canonicalizationVersion == "" || at.None? || !idx.receipts[at.value].BasisKnown() {
            return Some(IdentityAmbiguous);
          }
          var have := idx.receipts[at.value].requestBasis;
          if !have.Basis? {
            return Some(UnreadableBasis);
          }
          if have.validationPolicy != want.validationPolicy || have.environmentHints != want.environmentHints {
            return Some(EnvelopeConflict);
          }
        }
        i := i + 1;
      }
      return None;
    }

    method RepairToolFunctionDurabilityLocked(io: Io) returns (error: Option<StoreError>)
      modifies this, dir
      ensures Holds(Repair(old(dir.Value()), old(View()), io), error)
    {
      if !durabilityUncertain {
        return None;
      }
      error := PersistLocked(io.replaceForRepair, io.syncForRepair);
      if error.None? {
        durabilityUncertain := false;
      }
    }

    method AppendPresentationRevisionLocked(rev: Option<PresentationRevision>, now: nat)
      modifies this
      ensures View() == old(View()).(idx := old(idx).(revisions := AddRevision(old(idx).revisions, rev, now)))
    {
      if rev.None? || rev.value.revisionID == "" {
        return;
      }
      var i := 0;
      while i < |idx.revisions|
        invariant 0 <= i <= |idx.revisions|
        invariant forall k :: 0 <= k < i ==> idx.revisions[k].revisionID != rev.value.revisionID
        invariant View() == old(View())
      {
        if idx.revisions[i].revisionID == rev.value.revisionID {
          return;
        }
        i := i + 1;
      }
      var r := rev.value;
      if r.createdAt == 0 { r := r.(createdAt := now); }
      idx := idx.(revisions := idx.revisions + [r]);
    }

    /** Persist what was just appended; take it back only when the file was not touched. */
    method PersistAdditionLocked(ghost before: View, ghost a: Addition, recLen: nat, revLen: nat, reqLen: nat, io: Io)
      returns (error: Option<StoreError>)
      requires View() == before.(idx := Add(before.idx, a))
      requires recLen == |before.idx.toolFunctions| && revLen == |before.idx.revisions|
      requires reqLen == |before.idx.receipts|
      modifies this, dir
      ensures Holds(Commit(old(dir.Value()), before, a, io), error)
    {
      error := PersistLocked(io.replaceIndex, io.syncIndex);
      if error.Some? {
        if error.value != PersistedNotDurable {
          idx := idx.(toolFunctions := idx.toolFunctions[..recLen],
                      revisions := idx.revisions[..revLen],
                      receipts := idx.receipts[..reqLen]);
        } else {
          durabilityUncertain := true;
          writerCommitted := true;
        }
        return;
      }
      writerCommitted := true;
    }

    method RegisterToolFunctionAtomic(op: Operation, rec: RegisteredToolFunction,
                                      rev: Option<PresentationRevision>, now: nat, io: Io)
      returns (result: Result<Registered, RegisterError>)
      modifies this, dir
      ensures var out := Register(old(dir.Value()), old(View()), op, rec, rev, now, io);
              dir.Value() == out.disk && View() == out.view && result == out.result
    {
      if !op.Complete() {
        return Err(RequestRefused(IncompleteOperation));
      }
      if !io.lock {
        return Err(StoreRefused(LockFailed));
      }
      var error := BeginToolFunctionWriteLocked(now, io);
      if error.Some? {
        return Err(StoreRefused(error.value));
      }
      error := RepairToolFunctionDurabilityLocked(io);
      if error.Some? {
        return Err(StoreRefused(error.value));
      }
      result := DecideLocked(op, rec, rev, now, io);
    }

    /** The request-id axis: a known id is always answered here. */
    method ResolveToolFunctionRequestLocked(op: Operation, rec: RegisteredToolFunction, ghost now: nat)
      returns (done: bool, result: Result<Registered, RegisterError>)
      requires rec.casHash != ""
      ensures done == FindReceipt(idx.receipts, op.requestID).Some?
      ensures done ==> !Decide(idx, op, rec).Reuse? && !Decide(idx, op, rec).Create?
      ensures done ==> result == Answer(Decide(idx, op, rec), op, rec, now, None)
    {
      done, result := true, Err(RequestRefused(RequestConflict));
      var at := FindToolFunctionRequestLocked(op.requestID);
      if at.None? {
        done := false;
        return;
      }
      var prior := idx.receipts[at.value];
      if !prior.BasisKnown() {
        result := Err(RequestRefused(RequestUnknownLegacy));
        return;
      }
      if prior.canonicalizationVersion != op.canonicalizationVersion
         || prior.requestFingerprint != op.requestFingerprint || prior.requestBasis != op.requestBasis
         || prior.casHash != rec.casHash
      {
        return;
      }
      var existing := FindToolFunctionLocked(prior.casHash);
      result := if existing.None? then Err(RequestRefused(IndexInconsistent))
                else Ok(Registered(idx.toolFunctions[existing.value], false));
    }

    /** Record a new request id against an existing record, once the reuse is proven. */
    method ReuseToolFunctionLocked(op: Operation, existing: RegisteredToolFunction, now: nat, io: Io)
      returns (error: Option<RegisterError>)
      modifies this, dir
      ensures var proven := ReuseProven(old(idx), op, existing);
              var out := Commit(old(dir.Value()), old(View()), NewReceipt(ReceiptOf(op, existing, now)), io);
              && (!proven ==> dir.Value() == old(dir.Value()) && View() == old(View())
                              && error == Some(RequestRefused(IdentityAmbiguous)))
              && (proven ==> dir.Value() == out.disk && View() == out.view
                             && error == (if out.error.Some? then Some(StoreRefused(out.error.value)) else None))
    {
      var origin := FindToolFunctionRequestLocked(existing.requestID);
      if existing.canonicalizationVersion == "" || origin.None? || !idx.receipts[origin.value].BasisKnown() {
        return Some(RequestRefused(IdentityAmbiguous));
      }
      var receipt := idx.receipts[origin.value];
      if receipt.canonicalizationVersion != op.canonicalizationVersion
         || receipt.requestFingerprint != op.requestFingerprint || receipt.requestBasis != op.requestBasis
      {
        return Some(RequestRefused(IdentityAmbiguous));
      }
      ghost var before := View();
      var recLen, revLen, reqLen := |idx.toolFunctions|, |idx.revisions|, |idx.receipts|;
      idx := idx.(receipts := idx.receipts + [ReceiptOf(op, existing, now)]);
      var e := PersistAdditionLocked(before, NewReceipt(ReceiptOf(op, existing, now)), recLen, revLen, reqLen, io);
      return if e.Some? then Some(StoreRefused(e.value)) else None;
    }

    /** Fill in what the caller left empty. */
    static method CompleteRecord(op: Operation, rec: RegisteredToolFunction, now: nat)
      returns (stored: RegisteredToolFunction)
      ensures stored == Completed(rec, op, now)
    {
      stored := rec;
      if stored.requestID == "" { stored := stored.(requestID := op.requestID); }
      if stored.canonicalizationVersion == "" {
        stored := stored.(canonicalizationVersion := op.canonicalizationVersion);
      }
      if stored.registeredAt == 0 { stored := stored.(registeredAt := now); }
      if stored.lifecycleUpdatedAt == 0 { stored := stored.(lifecycleUpdatedAt := now); }
      if stored.lifecyclePhase == UnsetPhase { stored := stored.(lifecyclePhase := PhaseActive); }
      if stored.artifactKind == "" { stored := stored.(artifactKind := KIND_TOOL_FUNCTION); }
    }

    /** Append a brand-new record, its revision and its receipt, and persist all three at once. */
    method CreateLocked(op: Operation, rec: RegisteredToolFunction,
                        rev: Option<PresentationRevision>, now: nat, io: Io)
      returns (stored: RegisteredToolFunction, error: Option<StoreError>)
      modifies this, dir
      ensures Holds(Commit(old(dir.Value()), old(View()), AdditionOf(Create, op, rec, rev, now), io), error)
      ensures stored == Completed(rec, op, now)
    {
      stored := CompleteRecord(op, rec, now);
      ghost var before := View();
      var recLen, revLen, reqLen := |idx.toolFunctions|, |idx.revisions|, |idx.receipts|;
      idx := idx.(toolFunctions := idx.toolFunctions + [stored]);
      AppendPresentationRevisionLocked(rev, now);
      idx := idx.(receipts := idx.receipts + [ReceiptOf(op, stored, now)]);
      error := PersistAdditionLocked(before, NewFunction(stored, rev, ReceiptOf(op, stored, now), now),
                                     recLen, revLen, reqLen, io);
    }

    method DecideLocked(op: Operation, rec: RegisteredToolFunction,
                        rev: Option<PresentationRevision>, now: nat, io: Io)
      returns (result: Result<Registered, RegisterError>)
      modifies this, dir
      ensures var out := Settle(old(dir.Value()), old(View()), op, rec, rev, now, io);
              && dir.Value() == out.disk && View() == out.view
              && result == Answer(Decide(old(idx), op, rec), op, rec, now, out.error)
    {
      hide Commit, EnvelopeCheck, Completed;
      if rec.casHash == "" {
        return Err(RequestRefused(EmptyCasHash));
      }
      var done;
      done, result := ResolveToolFunctionRequestLocked(op, rec, now);
      if done {
        return;
      }
      var refusal := CheckToolFunctionEnvelopeLocked(op, rec.toolFunctionDigest);
      if refusal.Some? {
        return Err(RequestRefused(refusal.value));
      }
      var found := FindToolFunctionLocked(rec.casHash);
      if found.Some? {
        var existing := idx.toolFunctions[found.value];
        var error := ReuseToolFunctionLocked(op, existing, now, io);
        return if error.Some? then Err(error.value) else Ok(Registered(existing, false));
      }
      var stored, error := CreateLocked(op, rec, rev, now, io);
      return if error.Some? then Err(StoreRefused(error.value)) else Ok(Registered(stored, true));
    }
  }

  lemma FindEntryIs(entries: seq<Entry>, casHash: string, k: nat)
    requires k < |entries| && entries[k].casHash == casHash
    requires forall i :: 0 <= i < k ==> entries[i].casHash != casHash
    ensures FindEntry(entries, casHash) == Some(k)
  {
    var at := FindEntry(entries, casHash);
    assert at.Some?;
  }

  /** A save that failed short of the file left every record where it was. */
  lemma FailedSaveKeepsImages(d: Disk, v: View, now: nat, io: Io)
    requires var out := StoreSteps.Save(d, v, now, io); out.error.Some? && LeavesMutationBehind(out.error.value)
    ensures StoreSteps.Save(d, v, now, io).view.idx.imageRecords == v.idx.imageRecords
  {
  }
}
