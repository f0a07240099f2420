/**
 What one write of a Store means, spelled out: which writes its checks accept and what they change, who may save,
 what a claim leaves in the fence, and how each ending of a save or a registration leaves the directory and memory.
 Then what follows for every index a run can show.
 */
module StoreRules {
  import opened Wrappers
  import opened IndexModel
  import opened Registration
  import opened StoreSteps
  import opened StoreRuns
  import opened StoreTheorems

  // ── the checks of an ordinary write ─────────────────────────────────────────

  /** The entry that a casHash names: the first one under it. */
  predicate IsEntryOf(entries: seq<Entry>, casHash: string, at: nat) {
    && at < |entries| && entries[at].casHash == casHash
    && forall i :: 0 <= i < at ==> entries[i].casHash != casHash
  }

  lemma EntryIsFound(entries: seq<Entry>, casHash: string, at: nat)
    requires IsEntryOf(entries, casHash, at)
    ensures FindEntry(entries, casHash) == Some(at)
  {
    var found := FindEntry(entries, casHash);
    assert found.Some?;
  }

  /**
   A phase change is accepted for a known entry along pending to active, active to retracted, and retracted to
   active or deleted, and it sets the phase and its time; no other entry and no other field changes.
   */
  lemma PhaseChange(idx: Index, casHash: string, phase: LifecyclePhase, now: nat, at: nat)
    ensures var w := SetLifecyclePhase(casHash, phase, now);
            && ((forall i :: 0 <= i < |idx.entries| ==> idx.entries[i].casHash != casHash) ==> !Accepts(idx, w))
            && (IsEntryOf(idx.entries, casHash, at) ==>
                  var e := idx.entries[at];
                  && (Accepts(idx, w) <==>
                       || (e.lifecyclePhase == PhasePending && phase == PhaseActive)
                       || (e.lifecyclePhase == PhaseActive && phase == PhaseRetracted)
                       || (e.lifecyclePhase == PhaseRetracted && (phase == PhaseActive || phase == PhaseDeleted)))
                  && Mutate(idx, w) ==
                     if Accepts(idx, w) then
                       idx.(entries := idx.entries[at := Entry(casHash, phase, e.integrityHealth,
                                                               e.registeredAt, now, e.healthCheckedAt)])
                     else idx)
  {
    if IsEntryOf(idx.entries, casHash, at) { EntryIsFound(idx.entries, casHash, at); }
  }

  /** A health is swapped exactly when the entry still has the expected one; it sets the health and its time. */
  lemma HealthSwap(idx: Index, casHash: string, expected: IntegrityHealth, health: IntegrityHealth, now: nat, at: nat)
    ensures var w := CompareAndSetIntegrityHealth(casHash, expected, health, now);
            && ((forall i :: 0 <= i < |idx.entries| ==> idx.entries[i].casHash != casHash) ==> !Accepts(idx, w))
            && (IsEntryOf(idx.entries, casHash, at) ==>
                  var e := idx.entries[at];
                  && (Accepts(idx, w) <==> e.integrityHealth == expected)
                  && Mutate(idx, w) ==
                     if e.integrityHealth == expected then
                       idx.(entries := idx.entries[at := Entry(casHash, e.lifecyclePhase, health,
                                                               e.registeredAt, e.lifecycleUpdatedAt, now)])
                     else idx)
  {
    if IsEntryOf(idx.entries, casHash, at) { EntryIsFound(idx.entries, casHash, at); }
  }

  /** An entry is appended exactly under a new, non-empty casHash, with the time filled in where it has none. */
  lemma EntryAppend(idx: Index, e: Entry, now: nat)
    ensures var w := AppendEntry(e, now);
            && (Accepts(idx, w) <==>
                  e.casHash != "" && forall i :: 0 <= i < |idx.entries| ==> idx.entries[i].casHash != e.casHash)
            && (Accepts(idx, w) ==> Mutate(idx, w) == idx.(entries := idx.entries + [
                 Entry(e.casHash, e.lifecyclePhase, e.integrityHealth,
                       if e.registeredAt == 0 then now else e.registeredAt,
                       if e.lifecycleUpdatedAt == 0 then now else e.lifecycleUpdatedAt,
                       if e.healthCheckedAt == 0 then now else e.healthCheckedAt)]))
  {
  }

  /** An image record is appended exactly with a digest, and once for a digest and a build. */
  lemma ImageAppend(idx: Index, r: ToolImageRecord, now: nat)
    ensures var w := AppendToolImageRecord(r, now);
            && (Accepts(idx, w) <==>
                  r.imageDigest != "" && forall i :: 0 <= i < |idx.imageRecords| ==>
                    idx.imageRecords[i].imageDigest != r.imageDigest || idx.imageRecords[i].buildID != r.buildID)
            && (Accepts(idx, w) ==> Mutate(idx, w) == idx.(imageRecords := idx.imageRecords + [
                 ToolImageRecord(r.imageDigest, r.imageRef, r.buildID, if r.pushedAt == 0 then now else r.pushedAt)]))
  {
  }

  lemma RefusedWriteChangesNothing(idx: Index, w: Write)
    requires !Accepts(idx, w)
    ensures Mutate(idx, w) == idx
  {
  }

  // ── lifecycle phases over whole runs ────────────────────────────────────────

  /** What a change of the file may do to an entry on it. */
  predicate EntryMoves(a: Entry, b: Entry) {
    && b.casHash == a.casHash && b.registeredAt == a.registeredAt
    && (|| b.lifecyclePhase == a.lifecyclePhase
        || (a.lifecyclePhase == PhasePending && b.lifecyclePhase == PhaseActive)
        || (a.lifecyclePhase == PhaseActive && b.lifecyclePhase == PhaseRetracted)
        || (a.lifecyclePhase == PhaseRetracted && b.lifecyclePhase == PhaseActive)
        || (a.lifecyclePhase == PhaseRetracted && b.lifecyclePhase == PhaseDeleted))
  }

  /** The n-th change of a history leaves every entry in place and moves its phase along one edge at most. */
  lemma PhasesMoveAlongEdges(base: Index, h: seq<Event>, n: nat)
    requires n < |h|
    ensures var a, b := Apply(base, h[..n]).entries, Apply(base, h[..n + 1]).entries;
            |a| <= |b| <= |a| + 1 && forall i :: 0 <= i < |a| ==> EntryMoves(a[i], b[i])
  {
    assert h[..n + 1][..n] == h[..n];
    EventMovesEntries(Apply(base, h[..n]), h[n]);
  }

  lemma EventMovesEntries(idx: Index, e: Event)
    ensures var a, b := idx.entries, ApplyEvent(idx, e).entries;
            && |a| <= |b| <= |a| + 1 && (forall i :: 0 <= i < |a| ==> EntryMoves(a[i], b[i]))
            && (|b| > |a| ==> e.Wrote? && e.w.AppendEntry? && b[|a|].lifecyclePhase == e.w.entry.lifecyclePhase)
  {
  }

  /**
   An entry is deleted only after it was retracted: whatever the history, an entry found deleted was so from the
   start, or was appended so, or was retracted right before the change that deleted it.
   */
  lemma {:induction false} DeletedOnlyFromRetracted(base: Index, h: seq<Event>, i: nat) returns (m: nat)
    requires i < |Apply(base, h).entries| && Apply(base, h).entries[i].lifecyclePhase == PhaseDeleted
    requires i < |base.entries| ==> base.entries[i].lifecyclePhase != PhaseDeleted
    ensures m < |h|
    ensures var a := Apply(base, h[..m]).entries;
            if i < |a| then a[i].lifecyclePhase == PhaseRetracted
            else h[m].Wrote? && h[m].w.AppendEntry? && h[m].w.entry.lifecyclePhase == PhaseDeleted
    ensures forall n :: m < n <= |h| ==> i < |Apply(base, h[..n]).entries|
                                         && Apply(base, h[..n]).entries[i].lifecyclePhase == PhaseDeleted
    decreases |h|
  {
    hide Apply, ApplyEvent;
    if h == [] { NoChange(base); }
    assert h[..|h|] == h;
    var last := |h| - 1;
    var before := h[..last];
    LastChange(base, h);
    EventMovesEntries(Apply(base, before), h[last]);
    var a := Apply(base, before).entries;
    if i < |a| && a[i].lifecyclePhase == PhaseDeleted {
      m := DeletedOnlyFromRetracted(base, before, i);
      forall n | m < n <= |h| ensures i < |Apply(base, h[..n]).entries|
                                      && Apply(base, h[..n]).entries[i].lifecyclePhase == PhaseDeleted {
        if n < |h| { assert before[..n] == h[..n]; }
      }
      assert before[..m] == h[..m];
    } else {
      m := last;
    }
  }

  lemma NoChange(base: Index)
    ensures Apply(base, []) == base
  {
  }

  lemma LastChange(base: Index, h: seq<Event>)
    ensures h != [] ==> Apply(base, h) == ApplyEvent(Apply(base, h[..|h| - 1]), h[|h| - 1])
  {
  }

  /** The content is the base with some changes that first retract and then delete the entry, or append it deleted. */
  ghost predicate DeletedInOrder(base: Index, c: Content, i: nat) {
    exists h: seq<Event>, m: nat ::
      && m < |h| && Stamp(Base(c)) == Apply(base, h)
      && var a := Apply(base, h[..m]).entries;
         if i < |a| then a[i].lifecyclePhase == PhaseRetracted
         else h[m].Wrote? && h[m].w.AppendEntry? && h[m].w.entry.lifecyclePhase == PhaseDeleted
  }

  /** The same in every content a run can show, power losses included. */
  lemma DeletedWasRetracted(states: seq<System>, steps: seq<Step>, k: nat, c: Content, i: nat)
    requires IsRun(states, steps) && Inv(states[0]) && Durably(states[0].disk) && k < |states|
    requires c in states[k].disk.indexExposed
    requires i < |Base(c).entries| && Base(c).entries[i].lifecyclePhase == PhaseDeleted
    requires var start := Base(states[0].disk.index).entries; i < |start| ==> start[i].lifecyclePhase != PhaseDeleted
    ensures DeletedInOrder(Stamp(Base(states[0].disk.index)), c, i)
  {
    hide Moves, Durably, Apply;
    var base := Stamp(Base(states[0].disk.index));
    var hs, marks := SerialThroughPowerLoss(states, steps, k);
    assert Serial(base, states[k].disk, hs[k], marks[k]);
    var n :| marks[k] <= n <= |hs[k]| && Stamp(Base(c)) == Apply(base, hs[k][..n]);
    assert Stamp(Base(c)).entries == Base(c).entries;
    var m := DeletedOnlyFromRetracted(base, hs[k][..n], i);
  }

  // ── keys stay unique ────────────────────────────────────────────────────────

  /** One entry for a casHash, one image record for a digest and a build. */
  ghost predicate KeysUnique(idx: Index) {
    && (forall i, j :: 0 <= i < j < |idx.entries| ==> idx.entries[i].casHash != idx.entries[j].casHash)
    && (forall i, j :: 0 <= i < j < |idx.imageRecords| ==>
          idx.imageRecords[i].imageDigest != idx.imageRecords[j].imageDigest
          || idx.imageRecords[i].buildID != idx.imageRecords[j].buildID)
  }

  lemma EventKeepsKeys(idx: Index, e: Event)
    requires KeysUnique(idx)
    ensures KeysUnique(ApplyEvent(idx, e))
  {
  }

  lemma {:induction false} ChangesKeepKeys(base: Index, h: seq<Event>)
    requires KeysUnique(base)
    ensures KeysUnique(Apply(base, h))
    decreases |h|
  {
    hide KeysUnique;
    if h != [] {
      ChangesKeepKeys(base, h[..|h| - 1]);
      EventKeepsKeys(Apply(base, h[..|h| - 1]), h[|h| - 1]);
    }
  }

  /** Started on a synced file with unique keys, no run shows two entries or two image records under one key. */
  lemma KeysUniqueEverywhere(states: seq<System>, steps: seq<Step>, k: nat, c: Content)
    requires IsRun(states, steps) && Inv(states[0]) && Durably(states[0].disk) && k < |states|
    requires KeysUnique(Base(states[0].disk.index)) && c in states[k].disk.indexExposed
    ensures KeysUnique(Base(c))
  {
    hide Moves, Durably, Apply;
    var base := Stamp(Base(states[0].disk.index));
    var hs, marks := SerialThroughPowerLoss(states, steps, k);
    assert Serial(base, states[k].disk, hs[k], marks[k]);
    var n :| marks[k] <= n <= |hs[k]| && Stamp(Base(c)) == Apply(base, hs[k][..n]);
    ChangesKeepKeys(base, hs[k][..n]);
  }

  // ── who may save ────────────────────────────────────────────────────────────

  /** The fence file is this profile's, and no newer schema's. */
  predicate OursOrNone(f: FenceFile) {
    f.NoFence? || (f.Fence? && f.profile == "w2-set-v1" && f.indexSchemaVersion <= 7)
  }

  /** The fence still names the Store's epoch, and a Store that has committed finds no older schema on file. */
  predicate HoldsEpoch(d: Disk, v: View, io: Io) {
    && io.readFence && OursOrNone(d.fence) && d.fence.Fence? && d.fence.epoch == v.epoch
    && (v.committed ==> io.readSchema && (d.index.Absent? || (d.index.File? && d.index.index.schemaVersion >= 7)))
  }

  predicate MayLoad(c: Content) {
    c.Absent? || (c.File? && c.index.schemaVersion <= 7)
  }

  /**
   A Store with an epoch writes exactly while the fence names it. It is answered as fenced when the fence is
   readable and names another profile, a newer schema, another epoch or none, or when a committed Store finds an
   older schema on file.
   */
  lemma EpochIsVerified(d: Disk, v: View, now: nat, io: Io)
    requires v.epoch != 0
    ensures var out := EnsureWriter(d, v, now, io);
            && out.disk == d && out.view == v
            && (out.error.None? <==> HoldsEpoch(d, v, io))
            && (out.error == Some(Fenced) <==>
                  && io.readFence && !d.fence.GarbledFence?
                  && (|| !OursOrNone(d.fence) || d.fence.NoFence? || d.fence.epoch != v.epoch
                      || (v.committed && io.readSchema && d.index.File? && d.index.index.schemaVersion < 7)))
  {
  }

  /**
   A Store without an epoch claims one exactly when the fence is readable and absent or its own profile's, the
   index loads, and the new fence is written and synced. The fence then holds the next epoch, keeps the time of the
   first activation, and both files are synced; memory is the file.
   */
  lemma EpochIsClaimed(d: Disk, v: View, now: nat, io: Io)
    requires v.epoch == 0
    ensures var out := EnsureWriter(d, v, now, io);
            var next := Fence(profile := "w2-set-v1",
                              epoch := if d.fence.Fence? then d.fence.epoch + 1 else 1,
                              indexSchemaVersion := 7,
                              activatedAt := if d.fence.Fence? && d.fence.activatedAt != 0 then d.fence.activatedAt
                                             else now,
                              claimedAt := now);
            && (out.error.None? <==>
                  io.readFence && OursOrNone(d.fence) && io.readForClaim && MayLoad(d.index)
                  && io.replaceFence && io.syncFence)
            && (out.error == Some(Fenced) <==> io.readFence && d.fence.Fence? && !OursOrNone(d.fence))
            && (out.error.None? ==>
                  && out.disk == Disk(d.index, {d.index}, next, {next})
                  && out.view == View(if d.index.Absent? then EMPTY_INDEX else d.index.index, d.index, next.epoch,
                                      v.committed, v.uncertain, []))
            && (out.error.Some? ==>
                  && out.view.epoch == 0
                  && out.disk in {d, d.(fence := next, fenceExposed := d.fenceExposed + {next})})
  {
  }

  // ── how a save ends ─────────────────────────────────────────────────────────

  /** The lock is taken and, with an epoch, the fence names it. */
  predicate MaySave(d: Disk, v: View, io: Io) {
    io.lock && (v.epoch != 0 ==> HoldsEpoch(d, v, io)) && io.readGeneration
  }

  function AtSchemaSeven(idx: Index): Index {
    Index(7, idx.entries, idx.imageRecords, idx.toolFunctions, idx.revisions, idx.receipts)
  }

  /**
   A save succeeds exactly when the Store may save, the file is the one it last saw, and rename and sync succeed;
   the file is then its memory under the current schema and nothing else can come back. Renamed but not synced, the
   file is the same and the older contents may come back. A file that moved is loaded in its place. Otherwise the
   directory is as it was and memory keeps everything but the schema number.
   */
  lemma SaveEnds(d: Disk, v: View, now: nat, io: Io)
    ensures var out := Save(d, v, now, io);
            var unmoved := MaySave(d, v, io) && d.index == v.generation;
            var written := File(AtSchemaSeven(v.idx));
            && (out.error.None? <==> unmoved && io.replaceIndex && io.syncIndex)
            && (out.error == Some(PersistedNotDurable) <==> unmoved && io.replaceIndex && !io.syncIndex)
            && (out.error == Some(FencedAndReloaded) <==>
                  MaySave(d, v, io) && d.index != v.generation && io.readForRefresh && MayLoad(d.index))
            && (out.error.None? ==> out.disk == Disk(written, {written}, d.fence, {d.fence}))
            && (out.error == Some(PersistedNotDurable) ==>
                  out.disk == Disk(written, d.indexExposed + {written}, d.fence, d.fenceExposed))
            && (unmoved && io.replaceIndex ==>
                  out.view == View(written.index, written, v.epoch, v.committed, v.uncertain, []))
            && (out.error == Some(FencedAndReloaded) ==>
                  && out.disk == d
                  && out.view == View(if d.index.Absent? then EMPTY_INDEX else d.index.index, d.index,
                                      v.epoch, v.committed, v.uncertain, []))
            && (out.error.Some? && out.error.value !in {PersistedNotDurable, FencedAndReloaded} ==>
                  && out.disk == d
                  && out.view in {v, v.(idx := AtSchemaSeven(v.idx))})
  {
    if v.epoch != 0 { EpochIsVerified(d, v, now, io); }
  }

  /**
   An ordinary write is done exactly when its checks accept it and the save succeeds. Rejected, it changes nothing.
   Failed before the rename, it stays in memory to go out with the next save, but for an image record, which is
   taken back.
   */
  lemma WriteEnds(d: Disk, v: View, w: Write, now: nat, io: Io)
    ensures var out := OrdinaryWrite(d, v, w, now, io);
            var changed := v.(idx := Mutate(v.idx, w), pending := v.pending + [w]);
            var save := Save(d, changed, now, io);
            && (out.result == Rejected <==> !Accepts(v.idx, w))
            && (out.result == Rejected ==> out.disk == d && out.view == v)
            && (Accepts(v.idx, w) ==>
                  && out.disk == save.disk
                  && (out.result == Done <==> save.error.None?)
                  && (forall e :: out.result == Failed(e) <==> save.error == Some(e))
                  && (save.error in {None, Some(PersistedNotDurable), Some(FencedAndReloaded)} ==>
                        out.view == save.view)
                  && (save.error !in {None, Some(PersistedNotDurable), Some(FencedAndReloaded)} ==>
                        && var kept := if w.AppendToolImageRecord? then v else changed;
                           && out.view.idx in {kept.idx, AtSchemaSeven(kept.idx)}
                           && out.view == kept.(idx := out.view.idx)))
  {
    hide Save;
    SaveEnds(d, v.(idx := Mutate(v.idx, w), pending := v.pending + [w]), now, io);
  }

  /** Loading replaces memory by the file, which must be readable, parse and not be of a newer schema. */
  lemma LoadEnds(d: Disk, v: View, readOk: bool)
    ensures var out := Load(d, v, readOk);
            && out.disk == d
            && (out.error == Some(ReadFailed) <==> !readOk)
            && (out.error == Some(ParseFailed) <==> readOk && d.index.Unparsable?)
            && (out.error == Some(NewerSchema) <==> readOk && d.index.File? && d.index.index.schemaVersion > 7)
            && (out.error.None? <==> readOk && MayLoad(d.index))
            && out.view == if out.error.Some? then v
                           else View(if d.index.Absent? then EMPTY_INDEX else d.index.index, d.index,
                                     v.epoch, v.committed, v.uncertain, [])
  {
  }

  // ── how a registration ends ─────────────────────────────────────────────────

  /**
   An addition that was renamed in is in memory and marks the Store as a committed writer; if the directory could
   not be synced the file may still be lost, which the Store remembers. Before the rename it leaves no trace.
   */
  lemma AdditionEnds(d: Disk, v: View, a: Addition, io: Io)
    ensures var added := File(AtSchemaSeven(Add(v.idx, a)));
            Commit(d, v, a, io) ==
            if !io.replaceIndex then Outcome(d, v.(idx := AtSchemaSeven(v.idx)), Some(NotPersisted))
            else if !io.syncIndex then
              Outcome(Disk(added, d.indexExposed + {added}, d.fence, d.fenceExposed),
                      View(added.index, added, v.epoch, true, true, []), Some(PersistedNotDurable))
            else
              Outcome(Disk(added, {added}, d.fence, {d.fence}),
                      View(added.index, added, v.epoch, true, v.uncertain, []), None)
  {
  }

  /** A Store that remembers such a file writes it again, synced, before it answers any registration. */
  lemma RepairEnds(d: Disk, v: View, io: Io)
    ensures var written := File(AtSchemaSeven(v.idx));
            var out := Repair(d, v, io);
            && (!v.uncertain ==> out == Outcome(d, v, None))
            && (v.uncertain ==> (out.error.None? <==> io.replaceForRepair && io.syncForRepair))
            && (v.uncertain && out.error.None? ==>
                  out == Outcome(Disk(written, {written}, d.fence, {d.fence}),
                                 View(written.index, written, v.epoch, v.committed, false, []), None))
            && (out.error.Some? ==> out.view.uncertain)
  {
  }

  const ALL_GOES_WELL := Io(true, true, true, true, true, true, true, true, true, true, true, true)

  /** An operation lacking its id, version, fingerprint or basis is refused before anything is touched. */
  lemma IncompleteIsRefused(d: Disk, v: View, op: Operation, rec: RegisteredToolFunction,
                            rev: Option<PresentationRevision>, now: nat, io: Io)
    requires op.requestID == "" || op.canonicalizationVersion == "" || op.requestFingerprint == ""
             || op.requestBasis == NoBasis
    ensures Register(d, v, op, rec, rev, now, io) == RegisterOutcome(d, v, Err(RequestRefused(IncompleteOperation)))
  {
  }

  /** What a registration decides about: the Store's memory while the file is the one it last saw, else the file. */
  function KnownIndex(d: Disk, v: View): Index {
    if v.epoch != 0 && d.index == v.generation then v.idx
    else if d.index.Absent? then EMPTY_INDEX
    else if d.index.File? then d.index.index
    else EMPTY_INDEX
  }

  /**
   A registration in which every file operation succeeds, by a Store that holds the epoch or can claim one, is
   answered by its decision about the index it knows: a refusal with its reason, or the record and whether it is
   new. A record or receipt is then in the file, alone; a replay adds nothing.
   */
  lemma HealthyRegistration(d: Disk, v: View, op: Operation, rec: RegisteredToolFunction,
                            rev: Option<PresentationRevision>, now: nat)
    requires op.Complete() && MayLoad(d.index)
    requires if v.epoch == 0 then OursOrNone(d.fence) else HoldsEpoch(d, v, ALL_GOES_WELL)
    ensures var known := KnownIndex(d, v);
            var decision := Decide(known, op, rec);
            var out := Register(d, v, op, rec, rev, now, ALL_GOES_WELL);
            && (decision.Refuse? ==> out.result == Err(RequestRefused(decision.why)))
            && (decision.Replay? ==> out.result == Ok(Registered(decision.existing, false)))
            && (decision.Reuse? ==> out.result == Ok(Registered(decision.existing, false)))
            && (decision.Create? ==> out.result == Ok(Registered(Completed(rec, op, now), true)))
            && (decision.Reuse? || decision.Create? ==>
                  && out.disk.index == File(AtSchemaSeven(Add(known, AdditionOf(decision, op, rec, rev, now))))
                  && out.disk.indexExposed == {out.disk.index}
                  && out.view.idx == out.disk.index.index && out.view.generation == out.disk.index)
            && (decision.Replay? || decision.Refuse? ==>
                  out.disk.index == if v.uncertain then File(AtSchemaSeven(known)) else d.index)
            && (v.uncertain ==> out.disk.indexExposed == {out.disk.index})
            && !out.view.uncertain
  {
    hide Decide, Add, AdditionOf, Completed, Prepare, Settle;
    HealthyPreparation(d, v, now);
    var known := KnownIndex(d, v);
    var ready := Prepare(d, v, now, ALL_GOES_WELL);
    StampSectionsOnly(known, op, rec);
    HealthySettling(ready.disk, ready.view, op, rec, rev, now);
    var decision := Decide(known, op, rec);
    if decision.Reuse? || decision.Create? { StampThenAdd(known, AdditionOf(decision, op, rec, rev, now)); }
  }

  lemma HealthyPreparation(d: Disk, v: View, now: nat)
    requires MayLoad(d.index)
    requires if v.epoch == 0 then OursOrNone(d.fence) else HoldsEpoch(d, v, ALL_GOES_WELL)
    ensures var known := KnownIndex(d, v);
            var ready := Prepare(d, v, now, ALL_GOES_WELL);
            && ready.error.None? && !ready.view.uncertain && ready.view.generation == ready.disk.index
            && ready.view.idx == (if v.uncertain then AtSchemaSeven(known) else known)
            && ready.disk.index == (if v.uncertain then File(AtSchemaSeven(known)) else d.index)
            && (v.uncertain ==> ready.disk.indexExposed == {ready.disk.index})
  {
    hide EnsureWriter;
    if v.epoch == 0 { EpochIsClaimed(d, v, now, ALL_GOES_WELL); } else { EpochIsVerified(d, v, now, ALL_GOES_WELL); }
  }

  lemma HealthySettling(d: Disk, v: View, op: Operation, rec: RegisteredToolFunction,
                        rev: Option<PresentationRevision>, now: nat)
    requires !v.uncertain
    ensures var decision := Decide(v.idx, op, rec);
            var out := Settle(d, v, op, rec, rev, now, ALL_GOES_WELL);
            && out.error.None? && !out.view.uncertain
            && (decision.Replay? || decision.Refuse? ==> out.disk == d && out.view == v)
            && (decision.Reuse? || decision.Create? ==>
                  var c := File(AtSchemaSeven(Add(v.idx, AdditionOf(decision, op, rec, rev, now))));
                  && out.disk.index == c && out.disk.indexExposed == {c}
                  && out.view.idx == c.index && out.view.generation == c)
  {
    hide Decide, Add, AdditionOf;
  }

  lemma StampThenAdd(idx: Index, a: Addition)
    ensures AtSchemaSeven(Add(AtSchemaSeven(idx), a)) == AtSchemaSeven(Add(idx, a))
  {
  }

  /** The schema number does not enter a decision. */
  lemma StampSectionsOnly(idx: Index, op: Operation, rec: RegisteredToolFunction)
    ensures Decide(AtSchemaSeven(idx), op, rec) == Decide(idx, op, rec)
  {
    DecideSections(AtSchemaSeven(idx), idx, op, rec);
  }
}
