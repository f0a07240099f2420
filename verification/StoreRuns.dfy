/**
 Any number of Store processes sharing one index directory, over every interleaving of their
 critical sections, every file-operation failure, process deaths and power losses.

 The main results are SerialHistory and SerialThroughPowerLoss (no lost update), AcknowledgedIsDurable,
 AcknowledgementsAgree (request idempotency), FencedForGood and EpochsDistinct (fencing),
 MemoryMatchesFile, HistoryOnlyGrows, and EveryIndexWellFormed (with envelope agreement).
 */
module StoreRuns {
  import opened Wrappers
  import opened IndexModel
  import opened Registration
  import opened StoreSteps

  /** A success this system has returned to a caller. */
  datatype Ack = Ack(op: Operation, stored: RegisteredToolFunction)

  /**
   `live` holds every process that has loaded the index; those in `ready` also passed the startup
   directory fsync and so serve requests. `legacy` names the records that predate versioned writes.
   */
  datatype System = System(disk: Disk, live: map<nat, View>, ready: set<nat>, acks: set<Ack>, legacy: set<string>)

  datatype Step =
    | OpenStore(id: nat, readOk: bool)
    | StartServing(id: nat, syncOk: bool)
    | RegisterFunction(id: nat, op: Operation, rec: RegisteredToolFunction,
                       rev: Option<PresentationRevision>, now: nat, io: Io)
    | WriteOrdinary(id: nat, w: Write, now: nat, io: Io)
    | Reload(id: nat, readOk: bool)
    | KillProcess(id: nat)
    | LosePower(index: Content, fence: FenceFile)

  const FRESH_VIEW := View(EMPTY_INDEX, Absent, 0, false, false, [])

  /** The record a caller passes names its own operation, as catalog.RegisterToolFunction does. */
  predicate Enabled(s: System, step: Step) {
    match step
    case OpenStore(id, _) => id !in s.live
    case StartServing(id, _) => id in s.live && id !in s.ready
    case RegisterFunction(id, op, rec, _, _, _) => id in s.live && id in s.ready && RecordOfOperation(op, rec)
    case WriteOrdinary(id, _, _, _) => id in s.live && id in s.ready
    case Reload(id, _) => id in s.live && id in s.ready
    case KillProcess(id) => id in s.live
    case LosePower(index, fence) => index in s.disk.indexExposed && fence in s.disk.fenceExposed
  }

  function With(s: System, id: nat, d: Disk, v: View): System {
    s.(disk := d, live := s.live[id := v])
  }

  function Next(s: System, step: Step): System
    requires Enabled(s, step)
  {
    match step
    case OpenStore(id, readOk) =>
      var loaded := Load(s.disk, FRESH_VIEW, readOk);
      if loaded.error.Some? then s else With(s, id, s.disk, loaded.view).(ready := s.ready - {id})
    case StartServing(id, syncOk) =>
      if syncOk then s.(disk := Synced(s.disk), ready := s.ready + {id})
      else s.(live := s.live - {id})
    case RegisterFunction(id, op, rec, rev, now, io) =>
      var out := Register(s.disk, s.live[id], op, rec, rev, now, io);
      With(s, id, out.disk, out.view).(
        acks := if out.result.Ok? then s.acks + {Ack(op, out.result.value.stored)} else s.acks)
    case WriteOrdinary(id, w, now, io) =>
      var out := OrdinaryWrite(s.disk, s.live[id], w, now, io);
      With(s, id, out.disk, out.view)
    case Reload(id, readOk) =>
      With(s, id, s.disk, Load(s.disk, s.live[id], readOk).view)
    case KillProcess(id) =>
      s.(live := s.live - {id}, ready := s.ready - {id})
    case LosePower(index, fence) =>
      System(Disk(index, {index}, fence, {fence}), map[], {}, s.acks, s.legacy)
  }

  // ── the invariant ───────────────────────────────────────────────────────────

  /** Memory is the recorded generation plus the Store's own unsaved ordinary writes. */
  ghost predicate ViewOk(d: Disk, v: View) {
    && Loadable(v.generation)
    && SameToolFunctions(v.idx, Base(v.generation))
    && Stamp(v.idx) == MutateAll(Stamp(Base(v.generation)), v.pending)
    && v.epoch >= 0
    && (v.epoch == 0 ==> !v.uncertain && !v.committed)
    && (v.epoch != 0 ==> d.fence.Fence? && v.epoch <= d.fence.epoch)
  }

  predicate FenceOk(f: FenceFile) {
    f.Fence? ==> f.epoch >= 1
  }

  ghost predicate DiskOk(d: Disk, legacy: set<string>) {
    && d.index in d.indexExposed
    && d.fence in d.fenceExposed
    && (forall f :: f in d.fenceExposed ==> FenceOk(f))
    && (forall c :: c in d.indexExposed && Loadable(c) ==> WellFormed(Base(c), legacy))
  }

  predicate Current(d: Disk, v: View) {
    v.epoch != 0 && d.fence.Fence? && v.epoch == d.fence.epoch
  }

  /** A power loss cannot change any ToolFunction section. */
  ghost predicate Settled(d: Disk) {
    forall c :: c in d.indexExposed ==> Loadable(c) && SameToolFunctions(Base(c), Base(d.index))
  }

  ghost predicate Durable(d: Disk, a: Ack) {
    forall c :: c in d.indexExposed ==> Loadable(c) && OnFile(Base(c), a.op, a.stored)
  }

  ghost predicate EpochsUnique(live: map<nat, View>) {
    forall i, j :: i in live && j in live && i != j && live[i].epoch != 0 ==> live[i].epoch != live[j].epoch
  }

  ghost predicate Inv(s: System) {
    && DiskOk(s.disk, s.legacy)
    && s.ready <= s.live.Keys
    && (forall i :: i in s.live ==> ViewOk(s.disk, s.live[i]))
    && EpochsUnique(s.live)
    && (forall i :: i in s.live && Current(s.disk, s.live[i]) && !s.live[i].uncertain ==> Settled(s.disk))
    && (forall a :: a in s.acks ==> Durable(s.disk, a))
  }

  /** Start: no process, any well-formed directory, nothing acknowledged yet. */
  ghost predicate Init(s: System) {
    && DiskOk(s.disk, s.legacy)
    && s.live == map[] && s.ready == {} && s.acks == {}
  }

  // ── stages: each keeps the invariant of the whole system ─────────────────────

  lemma WellFormedSections(a: Index, b: Index, legacy: set<string>)
    requires SameToolFunctions(a, b) && WellFormed(a, legacy)
    ensures WellFormed(b, legacy)
  {
  }

  lemma LiveView(s: System, id: nat)
    requires Inv(s) && id in s.live
    ensures ViewOk(s.disk, s.live[id])
  {
    hide DiskOk, ViewOk, EpochsUnique, Settled, Durable;
  }

  lemma LoadedViewOk(d: Disk, v: View, readOk: bool)
    requires ViewOk(d, v)
    ensures ViewOk(d, Load(d, v, readOk).view)
  {
    assert MutateAll(Stamp(Base(d.index)), []) == Stamp(Base(d.index));
  }

  lemma LoadStage(s: System, id: nat, readOk: bool)
    requires Inv(s) && id in s.live
    ensures Inv(With(s, id, s.disk, Load(s.disk, s.live[id], readOk).view))
  {
    hide Inv, ViewOk;
    LiveView(s, id);
    LoadedViewOk(s.disk, s.live[id], readOk);
    SwapView(s, id, Load(s.disk, s.live[id], readOk).view);
  }

  lemma SyncStage(s: System)
    requires Inv(s)
    ensures Inv(s.(disk := Synced(s.disk)))
  {
    hide WellFormed, OnFile;
    var s' := s.(disk := Synced(s.disk));
    forall i | i in s'.live && Current(s'.disk, s'.live[i]) && !s'.live[i].uncertain
      ensures Settled(s'.disk)
    {
      assert Current(s.disk, s.live[i]);
    }
  }

  predicate FenceMoves(f: FenceFile, f': FenceFile) {
    f' == f || (f'.Fence? && (f.Fence? ==> f.epoch < f'.epoch))
  }

  /** The frame argument all stages share: one Store and the disk move, every other Store stays. */
  lemma Framed(s: System, id: nat, d: Disk, v: View)
    requires Inv(s) && id in s.live
    requires DiskOk(d, s.legacy) && ViewOk(d, v) && FenceMoves(s.disk.fence, d.fence)
    requires v.epoch == s.live[id].epoch || (d.fence != s.disk.fence && d.fence.Fence? && v.epoch == d.fence.epoch)
    requires Current(d, v) && !v.uncertain ==> Settled(d)
    requires (exists i :: i in s.live && i != id && Current(d, s.live[i]) && !s.live[i].uncertain) ==> Settled(d)
    requires forall a :: a in s.acks ==> Durable(d, a)
    ensures Inv(With(s, id, d, v))
  {
    hide WellFormed, OnFile, Settled;
    var s' := With(s, id, d, v);
    forall i | i in s'.live
      ensures ViewOk(d, s'.live[i])
    {
      if i != id { assert ViewOk(s.disk, s.live[i]); }
    }
    forall i, j | i in s'.live && j in s'.live && i != j && s'.live[i].epoch != 0
      ensures s'.live[i].epoch != s'.live[j].epoch
    {
      assert ViewOk(s.disk, s.live[i]) && ViewOk(s.disk, s.live[j]);
    }
  }

  function Renamed(d: Disk, c: Content, synced: bool): Disk {
    var renamed := d.(index := c, indexExposed := d.indexExposed + {c});
    if synced then Synced(renamed) else renamed
  }

  /** Renaming in a content that only grows the ToolFunction sections. */
  lemma RenameKeeps(s: System, c: Content, synced: bool)
    requires Inv(s)
    requires c.File? && Loadable(c) && WellFormed(c.index, s.legacy) && ToolFunctionsPrefix(Base(s.disk.index), c.index)
    requires Loadable(s.disk.index)
    ensures DiskOk(Renamed(s.disk, c, synced), s.legacy)
    ensures forall a :: a in s.acks ==> Durable(Renamed(s.disk, c, synced), a)
    ensures synced ==> Settled(Renamed(s.disk, c, synced))
    ensures SameToolFunctions(Base(s.disk.index), c.index) && Settled(s.disk) ==> Settled(Renamed(s.disk, c, synced))
  {
    forall a | a in s.acks
      ensures OnFile(c.index, a.op, a.stored)
    {
      assert Durable(s.disk, a);
      OnFileInExtension(Base(s.disk.index), c.index, a.op, a.stored);
    }
  }

  /** Persisting ordinary changes: the ToolFunction sections on disk do not move. */
  lemma PersistStage(s: System, id: nat, v: View, replaceOk: bool, syncOk: bool)
    requires Inv(s) && id in s.live
    requires ViewOk(s.disk, v) && v.generation == s.disk.index
    requires v.epoch == s.live[id].epoch && v.uncertain == s.live[id].uncertain
    ensures var out := Persist(s.disk, v, replaceOk, syncOk);
            Inv(With(s, id, out.disk, out.view))
  {
    var out := Persist(s.disk, v, replaceOk, syncOk);
    StampedViewOk(s.disk, v);
    if replaceOk {
      var c := File(Stamp(v.idx));
      WellFormedSections(Base(s.disk.index), c.index, s.legacy);
      RenameKeeps(s, c, syncOk);
      assert out.disk == Renamed(s.disk, c, syncOk);
      FreshViewOk(out.disk, v, c);
    }
    SettledIfCurrent(s, id, v.epoch, v.uncertain);
    Framed(s, id, out.disk, out.view);
  }

  lemma SettledIfCurrent(s: System, id: nat, epoch: int, uncertain: bool)
    requires Inv(s) && id in s.live && epoch == s.live[id].epoch && uncertain == s.live[id].uncertain
    ensures epoch != 0 && s.disk.fence.Fence? && epoch == s.disk.fence.epoch && !uncertain ==> Settled(s.disk)
    ensures (exists i :: i in s.live && Current(s.disk, s.live[i]) && !s.live[i].uncertain) ==> Settled(s.disk)
  {
    if epoch != 0 && s.disk.fence.Fence? && epoch == s.disk.fence.epoch && !uncertain {
      assert Current(s.disk, s.live[id]);
    }
  }

  lemma StampedViewOk(d: Disk, v: View)
    requires ViewOk(d, v)
    ensures ViewOk(d, v.(idx := Stamp(v.idx)))
  {
  }

  /** Right after a rename, memory is exactly the generation and nothing is pending. */
  lemma FreshViewOk(d: Disk, v: View, c: Content)
    requires c == File(Stamp(v.idx)) && v.epoch >= 0
    requires v.epoch == 0 ==> !v.uncertain && !v.committed
    requires v.epoch != 0 ==> d.fence.Fence? && v.epoch <= d.fence.epoch
    ensures ViewOk(d, v.(idx := c.index, generation := c, pending := []))
  {
    assert MutateAll(c.index, []) == c.index;
  }

  lemma ClaimStage(s: System, id: nat, now: nat, io: Io)
    requires Inv(s) && id in s.live && s.live[id].epoch == 0
    requires !s.disk.fence.GarbledFence?
    ensures var out := Claim(s.disk, s.live[id], now, io);
            Inv(With(s, id, out.disk, out.view))
  {
    hide WellFormed, OnFile;
    var out := Claim(s.disk, s.live[id], now, io);
    LoadStage(s, id, io.readForClaim);
    var loaded := Load(s.disk, s.live[id], io.readForClaim);
    if loaded.error.None? && io.replaceFence {
      assert forall f :: f in out.disk.fenceExposed ==> FenceOk(f);
      assert DiskOk(out.disk, s.legacy);
      assert ViewOk(s.disk, loaded.view);
      assert forall i :: i in s.live ==> ViewOk(s.disk, s.live[i]);
      assert forall i :: i in s.live ==> !Current(out.disk, s.live[i]);
      Framed(s, id, out.disk, out.view);
    }
  }

  lemma EnsureStage(s: System, id: nat, now: nat, io: Io)
    requires Inv(s) && id in s.live
    ensures var out := EnsureWriter(s.disk, s.live[id], now, io);
            && Inv(With(s, id, out.disk, out.view))
            && out.disk.index == s.disk.index
            && (out.error.None? ==> Current(out.disk, out.view))
            && (s.live[id].epoch != 0 ==> out.disk == s.disk && out.view == s.live[id])
  {
    assert s == With(s, id, s.disk, s.live[id]);
    if s.live[id].epoch == 0 && !s.disk.fence.GarbledFence? {
      ClaimStage(s, id, now, io);
    }
  }

  lemma BeginStage(s: System, id: nat, now: nat, io: Io)
    requires Inv(s) && id in s.live
    ensures var out := BeginWrite(s.disk, s.live[id], now, io);
            && Inv(With(s, id, out.disk, out.view))
            && out.disk.index == s.disk.index
            && (out.error.None? ==> Current(out.disk, out.view) && out.view.generation == out.disk.index)
  {
    hide Inv, EnsureWriter;
    EnsureStage(s, id, now, io);
    var owned := EnsureWriter(s.disk, s.live[id], now, io);
    var s1 := With(s, id, owned.disk, owned.view);
    if owned.error.None? && io.readGeneration && owned.disk.index != owned.view.generation {
      LoadStage(s1, id, io.readForRefresh);
      var out := Load(owned.disk, owned.view, io.readForRefresh);
      assert With(s1, id, out.disk, out.view) == With(s, id, out.disk, out.view);
    }
  }

  /** Once the file is durable, the flag can go. */
  lemma CertainStage(s: System, id: nat)
    requires Inv(s) && id in s.live && Settled(s.disk)
    ensures Inv(With(s, id, s.disk, s.live[id].(uncertain := false)))
  {
    hide WellFormed, Settled, Durable;
    LiveView(s, id);
    Framed(s, id, s.disk, s.live[id].(uncertain := false));
  }

  lemma SyncedIsSettled(d: Disk, v: View)
    requires ViewOk(d, v) && v.generation == d.index
    ensures Settled(Persist(d, v, true, true).disk)
    ensures forall replaceOk, syncOk ::
              && ToolFunctionsPrefix(Base(d.index), Base(Persist(d, v, replaceOk, syncOk).disk.index))
              && Loadable(Persist(d, v, replaceOk, syncOk).disk.index)
  {
  }

  lemma RepairStage(s: System, id: nat, io: Io)
    requires Inv(s) && id in s.live
    requires Current(s.disk, s.live[id]) && s.live[id].generation == s.disk.index
    ensures var out := Repair(s.disk, s.live[id], io);
            && Inv(With(s, id, out.disk, out.view))
            && (out.error.None? ==>
                  Current(out.disk, out.view) && out.view.generation == out.disk.index && !out.view.uncertain)
            && ToolFunctionsPrefix(Base(s.disk.index), Base(out.disk.index))
            && Loadable(out.disk.index)
  {
    hide Inv, ViewOk, Settled, ToolFunctionsPrefix, Base, Loadable;
    var v := s.live[id];
    assert s == With(s, id, s.disk, v);
    LiveView(s, id);
    UnmovedIndex(s.disk, v);
    if v.uncertain {
      PersistStage(s, id, v, io.replaceForRepair, io.syncForRepair);
      SyncedIsSettled(s.disk, v);
      var saved := Persist(s.disk, v, io.replaceForRepair, io.syncForRepair);
      if saved.error.None? {
        var s1 := With(s, id, saved.disk, saved.view);
        CertainStage(s1, id);
        var out := saved.view.(uncertain := false);
        assert With(s1, id, saved.disk, out) == With(s, id, saved.disk, out);
      }
    }
  }

  lemma UnmovedIndex(d: Disk, v: View)
    requires ViewOk(d, v) && v.generation == d.index
    ensures ToolFunctionsPrefix(Base(d.index), Base(d.index)) && Loadable(d.index)
  {
  }

  lemma PrepareStage(s: System, id: nat, now: nat, io: Io)
    requires Inv(s) && id in s.live
    ensures var out := Prepare(s.disk, s.live[id], now, io);
            && Inv(With(s, id, out.disk, out.view))
            && (out.error.None? ==>
                  && Current(out.disk, out.view) && out.view.generation == out.disk.index
                  && !out.view.uncertain && Settled(out.disk))
  {
    hide Inv, BeginWrite, Settled;
    assert s == With(s, id, s.disk, s.live[id]);
    if io.lock {
      BeginStage(s, id, now, io);
      var begun := BeginWrite(s.disk, s.live[id], now, io);
      if begun.error.None? {
        var s1 := With(s, id, begun.disk, begun.view);
        RepairStage(s1, id, io);
        var out := Repair(begun.disk, begun.view, io);
        assert With(s1, id, out.disk, out.view) == With(s, id, out.disk, out.view);
        SettledIfCurrent(With(s, id, out.disk, out.view), id, out.view.epoch, out.view.uncertain);
      }
    }
  }

  /** Committing an addition: only the current writer does it, and it knows when it is not durable. */
  lemma CommitStage(s: System, id: nat, a: Addition, io: Io)
    requires Inv(s) && id in s.live
    requires Current(s.disk, s.live[id]) && s.live[id].generation == s.disk.index && !s.live[id].uncertain
    requires WellFormed(Add(s.live[id].idx, a), s.legacy)
    ensures var out := Commit(s.disk, s.live[id], a, io);
            && Inv(With(s, id, out.disk, out.view))
            && (out.error.None? ==> out.disk.indexExposed == {File(Stamp(Add(s.live[id].idx, a)))})
  {
    hide WellFormed, OnFile;
    var v := s.live[id];
    var out := Commit(s.disk, v, a, io);
    assert ViewOk(s.disk, v);
    StampedViewOk(s.disk, v);
    if io.replaceIndex {
      var c := File(Stamp(Add(v.idx, a)));
      WellFormedSections(Add(v.idx, a), c.index, s.legacy);
      RenameKeeps(s, c, io.syncIndex);
      assert out.disk == Renamed(s.disk, c, io.syncIndex);
      FreshViewOk(out.disk, v.(idx := Add(v.idx, a), committed := true, uncertain := !io.syncIndex), c);
    }
    SettledIfCurrent(s, id, v.epoch, v.uncertain);
    assert forall i :: i in s.live && i != id ==> !Current(s.disk, s.live[i]);
    Framed(s, id, out.disk, out.view);
  }

  // ── every step keeps the invariant ──────────────────────────────────────────

  lemma RegisterKeepsInv(s: System, step: Step)
    requires Inv(s) && Enabled(s, step) && step.RegisterFunction?
    ensures Inv(Next(s, step))
  {
    var RegisterFunction(id, op, rec, rev, now, io) := step;
    RegisterStage(s, id, op, rec, rev, now, io);
    var out := Register(s.disk, s.live[id], op, rec, rev, now, io);
    if out.result.Ok? { AddAck(With(s, id, out.disk, out.view), op, out.result.value.stored); }
  }

  lemma RegisterStage(s: System, id: nat, op: Operation, rec: RegisteredToolFunction,
                      rev: Option<PresentationRevision>, now: nat, io: Io)
    requires Inv(s) && id in s.live && RecordOfOperation(op, rec)
    ensures var out := Register(s.disk, s.live[id], op, rec, rev, now, io);
            && Inv(With(s, id, out.disk, out.view))
            && (out.result.Ok? ==> Durable(out.disk, Ack(op, out.result.value.stored)))
  {
    hide Inv, Durable, Decide, Prepare, Settle, WellFormed;
    if op.Complete() {
      PrepareStage(s, id, now, io);
      var ready := Prepare(s.disk, s.live[id], now, io);
      if ready.error.None? {
        var s1 := With(s, id, ready.disk, ready.view);
        DecideStage(s1, id, op, rec, rev, now, io);
        var out := Settle(ready.disk, ready.view, op, rec, rev, now, io);
        assert With(s1, id, out.disk, out.view) == With(s, id, out.disk, out.view);
      }
    } else {
      assert s == With(s, id, s.disk, s.live[id]);
    }
  }

  lemma AddAck(s: System, op: Operation, stored: RegisteredToolFunction)
    requires Inv(s) && Durable(s.disk, Ack(op, stored))
    ensures Inv(s.(acks := s.acks + {Ack(op, stored)}))
  {
  }

  lemma ViewIsWellFormed(s: System, id: nat)
    requires Inv(s) && id in s.live && s.live[id].generation == s.disk.index
    ensures WellFormed(s.live[id].idx, s.legacy) && SameToolFunctions(s.live[id].idx, Base(s.disk.index))
  {
    hide WellFormed;
    LiveView(s, id);
    WellFormedSections(Base(s.disk.index), s.live[id].idx, s.legacy);
  }

  lemma DecideStage(s: System, id: nat, op: Operation, rec: RegisteredToolFunction,
                    rev: Option<PresentationRevision>, now: nat, io: Io)
    requires Inv(s) && id in s.live && op.Complete() && RecordOfOperation(op, rec)
    requires Current(s.disk, s.live[id]) && s.live[id].generation == s.disk.index
    requires !s.live[id].uncertain && Settled(s.disk)
    ensures var out := Settle(s.disk, s.live[id], op, rec, rev, now, io);
            var decision := Decide(s.live[id].idx, op, rec);
            && Inv(With(s, id, out.disk, out.view))
            && (!decision.Refuse? && out.error.None? ==> Durable(out.disk, Ack(op, Stored(decision, op, rec, now))))
  {
    hide Inv, WellFormed, ViewOk, Settled;
    LiveView(s, id);
    var v := s.live[id];
    assert s == With(s, id, s.disk, v);
    ViewIsWellFormed(s, id);
    var decision := Decide(v.idx, op, rec);
    AcceptedIsOnFile(v.idx, op, rec, rev, now);
    if decision.Replay? {
      ReplayIsDurable(s.disk, v.idx, op, decision.existing);
    } else if decision.Reuse? || decision.Create? {
      var a := AdditionOf(decision, op, rec, rev, now);
      RegistrationKeepsWellFormed(v.idx, op, rec, rev, now, s.legacy);
      CommitStage(s, id, a, io);
      OnFileInExtension(Add(v.idx, a), Stamp(Add(v.idx, a)), op, Stored(decision, op, rec, now));
    }
  }

  lemma ReplayIsDurable(d: Disk, idx: Index, op: Operation, stored: RegisteredToolFunction)
    requires Settled(d) && SameToolFunctions(idx, Base(d.index)) && OnFile(idx, op, stored)
    ensures Durable(d, Ack(op, stored))
  {
    forall c | c in d.indexExposed
      ensures OnFile(Base(c), op, stored)
    {
      OnFileInExtension(idx, Base(c), op, stored);
    }
  }

  lemma SwapView(s: System, id: nat, v: View)
    requires Inv(s) && id in s.live && ViewOk(s.disk, v)
    requires v.epoch == s.live[id].epoch && v.uncertain == s.live[id].uncertain
    ensures Inv(With(s, id, s.disk, v))
  {
    hide WellFormed;
    SettledIfCurrent(s, id, v.epoch, v.uncertain);
    Framed(s, id, s.disk, v);
  }

  lemma SaveStage(s: System, id: nat, v: View, now: nat, io: Io)
    requires Inv(s) && id in s.live
    requires ViewOk(s.disk, v)
    requires v.epoch == s.live[id].epoch && v.uncertain == s.live[id].uncertain
    ensures var out := Save(s.disk, v, now, io);
            && Inv(With(s, id, out.disk, out.view))
            && (out.error.Some? && LeavesMutationBehind(out.error.value) ==>
                  out.disk == s.disk && (out.view == v || out.view == v.(idx := Stamp(v.idx))))
  {
    hide Inv, ViewOk;
    var s0 := With(s, id, s.disk, v);
    SwapView(s, id, v);
    if v.epoch != 0 { OwnedEnsureChangesNothing(s.disk, v, now, io); }
    if s.disk.index == v.generation {
      PersistStage(s, id, v, io.replaceIndex, io.syncIndex);
    } else {
      LoadStage(s0, id, io.readForRefresh);
      var out := Load(s.disk, v, io.readForRefresh);
      assert With(s0, id, s.disk, out.view) == With(s, id, s.disk, out.view);
    }
  }

  lemma OwnedEnsureChangesNothing(d: Disk, v: View, now: nat, io: Io)
    requires v.epoch != 0
    ensures EnsureWriter(d, v, now, io) == Outcome(d, v, EnsureWriter(d, v, now, io).error)
  {
  }

  lemma MutatedViewOk(d: Disk, v: View, w: Write)
    requires ViewOk(d, v) && Accepts(v.idx, w)
    ensures ViewOk(d, v.(idx := Mutate(v.idx, w), pending := v.pending + [w]))
  {
    var ws := v.pending + [w];
    assert ws[..|ws| - 1] == v.pending;
    assert Accepts(Stamp(v.idx), w);
  }

  lemma WriteKeepsInv(s: System, step: Step)
    requires Inv(s) && Enabled(s, step) && step.WriteOrdinary?
    ensures Inv(Next(s, step))
  {
    hide Inv, ViewOk, Save;
    var WriteOrdinary(id, w, now, io) := step;
    var v := s.live[id];
    assert s == With(s, id, s.disk, v);
    LiveView(s, id);
    if Accepts(v.idx, w) {
      var v1 := v.(idx := Mutate(v.idx, w), pending := v.pending + [w]);
      MutatedViewOk(s.disk, v, w);
      SaveStage(s, id, v1, now, io);
      var out := OrdinaryWrite(s.disk, v, w, now, io);
      if w.AppendToolImageRecord? && out.result.Failed? && LeavesMutationBehind(out.result.error) {
        assert Stamp(out.view.idx) == Stamp(v.idx);
        SameViewKeepsInv(s, id, out.view);
      }
    }
  }

  /** Only the stamp of a view's own memory changed. */
  lemma SameViewKeepsInv(s: System, id: nat, v: View)
    requires Inv(s) && id in s.live
    requires Stamp(v.idx) == Stamp(s.live[id].idx)
    requires v == s.live[id].(idx := v.idx)
    ensures Inv(With(s, id, s.disk, v))
  {
    assert ViewOk(s.disk, v) by {
      assert ViewOk(s.disk, s.live[id]);
      assert SameToolFunctions(v.idx, s.live[id].idx) by { assert Stamp(v.idx).receipts == v.idx.receipts; }
    }
    SwapView(s, id, v);
  }

  lemma LosePowerKeepsInv(s: System, step: Step)
    requires Inv(s) && Enabled(s, step) && step.LosePower?
    ensures Inv(Next(s, step))
  {
    hide WellFormed, OnFile;
  }

  lemma StepKeepsInv(s: System, step: Step)
    requires Inv(s) && Enabled(s, step)
    ensures Inv(Next(s, step))
  {
    hide WellFormed, OnFile, Register, OrdinaryWrite;
    match step
    case OpenStore(id, readOk) => OpenKeepsInv(s, id, readOk);
    case StartServing(id, syncOk) => SyncStage(s);
    case RegisterFunction(_, _, _, _, _, _) => RegisterKeepsInv(s, step);
    case WriteOrdinary(_, _, _, _) => WriteKeepsInv(s, step);
    case Reload(id, readOk) => LoadStage(s, id, readOk);
    case KillProcess(_) =>
    case LosePower(_, _) => LosePowerKeepsInv(s, step);
  }

  lemma OpenKeepsInv(s: System, id: nat, readOk: bool)
    requires Inv(s) && id !in s.live
    ensures Inv(Next(s, OpenStore(id, readOk)))
  {
  }

  // ── runs ────────────────────────────────────────────────────────────────────

  /** states[k] is the system before steps[k]; the last state follows the last step. */
  ghost predicate IsRun(states: seq<System>, steps: seq<Step>) {
    && |states| == |steps| + 1
    && forall k :: 0 <= k < |steps| ==> Enabled(states[k], steps[k]) && states[k + 1] == Next(states[k], steps[k])
  }

  lemma {:induction false} RunKeepsInv(states: seq<System>, steps: seq<Step>, k: nat)
    requires IsRun(states, steps) && Inv(states[0]) && k < |states|
    ensures Inv(states[k])
  {
    if k > 0 {
      RunKeepsInv(states, steps, k - 1);
      StepKeepsInv(states[k - 1], steps[k - 1]);
    }
  }
}
