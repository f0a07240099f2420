/**
 Why the sections of the index may be studied one at a time: a save of the whole file, a reload, a restart and
 the steps of other Stores are, seen through one section, the events of SharedFile.
 */
module SectionHosts {
  import opened SharedFile
  import opened Wrappers
  import opened IndexModel
  import opened Registration
  import opened StoreSteps
  import opened StoreRuns

  /** A section is read off an index; stamping the schema version does not touch it. */
  ghost predicate IsSection<T>(section: Index -> T) {
    forall idx :: section(Stamp(idx)) == section(idx)
  }

  ghost function Contained<T>(section: Index -> T, cs: set<Content>): set<T> {
    set c | c in cs :: section(Base(c))
  }

  /** One Store's memory and the directory, seen through a section. */
  ghost function Seen<T>(section: Index -> T, d: Disk, v: View): Host<T> {
    Host(section(v.idx), section(Base(v.generation)), section(Base(d.index)), Contained(section, d.indexExposed))
  }

  /** What becomes of a save: it ends as one of the section's own, or the whole file has moved and is reloaded. */
  datatype Fate = Ended(save: SaveOutcome) | Moved

  function FateOf(d: Disk, v: View, now: nat, io: Io): Fate {
    if !io.lock || (v.epoch != 0 && EnsureWriter(d, v, now, io).error.Some?) || !io.readGeneration then Ended(Refused)
    else if d.index == v.generation then
      Ended(if !io.replaceIndex then Refused else if io.syncIndex then Synced else Unsynced)
    else if Load(d, v, io.readForRefresh).error.None? then Moved
    else Ended(Refused)
  }

  /** A change of the section and a save with that fate; a reload drops the change, even one of another section. */
  function Committed<T(==)>(h: Host<T>, next: T, fate: Fate): Saved<T> {
    match fate
    case Ended(save) => SharedFile.Commit(h, next, save)
    case Moved => Saved(Reloaded(h), false)
  }

  lemma ContainedOne<T>(section: Index -> T, c: Content)
    ensures Contained(section, {c}) == {section(Base(c))}
  {
  }

  lemma ContainedMore<T>(section: Index -> T, cs: set<Content>, c: Content)
    ensures Contained(section, cs + {c}) == Contained(section, cs) + {section(Base(c))}
  {
  }

  lemma PersistIsSave<T>(section: Index -> T, d: Disk, v: View, replaceOk: bool, syncOk: bool)
    requires IsSection(section) && v.generation == d.index
    ensures var out := Persist(d, v, replaceOk, syncOk);
            var saved := SharedFile.Save(Seen(section, d, v),
                           if !replaceOk then Refused else if syncOk then Synced else Unsynced);
            Seen(section, out.disk, out.view) == saved.host && (out.error.None? <==> saved.ok)
  {
    var c := File(Stamp(v.idx));
    assert section(Stamp(v.idx)) == section(v.idx);
    ContainedOne(section, c);
    ContainedMore(section, d.indexExposed, c);
  }

  lemma LoadIsReload<T>(section: Index -> T, d: Disk, v: View, readOk: bool)
    ensures var out := Load(d, v, readOk);
            if out.error.None? then Seen(section, out.disk, out.view) == Reloaded(Seen(section, d, v))
            else out == Outcome(d, v, out.error)
  {
  }

  /**
   A save of the store, seen through any section, is the section's own: whatever the change of the whole index was,
   the section commits its part of it with one of its outcomes, or is reloaded because the file has moved. It is
   answered with success exactly when the section's save is, and only then.
   */
  lemma SaveIsASectionCommit<T>(section: Index -> T, d: Disk, v: View, idx: Index, pending: seq<Write>,
                                now: nat, io: Io)
    requires IsSection(section)
    ensures var changed := v.(idx := idx, pending := pending);
            var out := StoreSteps.Save(d, changed, now, io);
            var saved := Committed(Seen(section, d, v), section(idx), FateOf(d, changed, now, io));
            Seen(section, out.disk, out.view) == saved.host && (out.error.None? <==> saved.ok)
  {
    hide Contained, EnsureWriter, Persist, Load, Base, IsSection;
    var changed := v.(idx := idx, pending := pending);
    if v.epoch != 0 { OwnedEnsureChangesNothing(d, changed, now, io); }
    if d.index == v.generation {
      PersistIsSave(section, d, changed, io.replaceIndex, io.syncIndex);
    } else {
      LoadIsReload(section, d, changed, io.readForRefresh);
    }
  }

  // ── what other Stores do ────────────────────────────────────────────────────

  /** Nothing, or a content renamed in or synced by another Store. */
  ghost predicate Outside<T(!new)>(h: Host<T>, h': Host<T>) {
    h' == h || exists to, synced :: h' == Overwritten(h, to, synced)
  }

  /** The index as before, synced, or replaced. */
  predicate OneRename(d: Disk, d': Disk) {
    || (d'.index == d.index && d'.indexExposed == d.indexExposed)
    || d'.indexExposed == {d'.index}
    || d'.indexExposed == d.indexExposed + {d'.index}
  }

  lemma RenameIsOutside<T(!new)>(section: Index -> T, d: Disk, d': Disk, mine: View)
    requires OneRename(d, d')
    ensures Outside(Seen(section, d, mine), Seen(section, d', mine))
  {
    ContainedOne(section, d'.index);
    ContainedMore(section, d.indexExposed, d'.index);
    var h, to := Seen(section, d, mine), section(Base(d'.index));
    assert Seen(section, d', mine) == h || Seen(section, d', mine) == Overwritten(h, to, true)
        || Seen(section, d', mine) == Overwritten(h, to, false);
  }

  /** Another Store's ordinary write is at most one rename in this Store's section. */
  lemma TheirSaveIsOutside<T(!new)>(section: Index -> T, d: Disk, mine: View, theirs: View, now: nat, io: Io)
    ensures Outside(Seen(section, d, mine), Seen(section, StoreSteps.Save(d, theirs, now, io).disk, mine))
  {
    if theirs.epoch != 0 { OwnedEnsureChangesNothing(d, theirs, now, io); }
    RenameIsOutside(section, d, StoreSteps.Save(d, theirs, now, io).disk, mine);
  }

  /** Another Store's registration is at most three: a claim's sync, a repair, and the addition. */
  lemma TheirRegistrationIsOutside<T(!new)>(section: Index -> T, d: Disk, mine: View, theirs: View, op: Operation,
                                            rec: RegisteredToolFunction, rev: Option<PresentationRevision>,
                                            now: nat, io: Io)
    returns (claimed: Host<T>, repaired: Host<T>)
    ensures Outside(Seen(section, d, mine), claimed) && Outside(claimed, repaired)
    ensures Outside(repaired, Seen(section, Register(d, theirs, op, rec, rev, now, io).disk, mine))
  {
    hide Outside, Seen, BeginWrite, Repair, Settle, OneRename, Answer, Decide;
    var out := Register(d, theirs, op, rec, rev, now, io);
    SameDisk(d);
    RenameIsOutside(section, d, d, mine);
    claimed, repaired := Seen(section, d, mine), Seen(section, d, mine);
    if op.Complete() && io.lock {
      var begun := BeginWrite(d, theirs, now, io);
      BeginIsOneRename(d, theirs, now, io);
      RenameIsOutside(section, d, begun.disk, mine);
      claimed, repaired := Seen(section, begun.disk, mine), Seen(section, begun.disk, mine);
      SameDisk(begun.disk);
      RenameIsOutside(section, begun.disk, begun.disk, mine);
      if begun.error.None? {
        var ready := Repair(begun.disk, begun.view, io);
        RepairIsOneRename(begun.disk, begun.view, io);
        RenameIsOutside(section, begun.disk, ready.disk, mine);
        repaired := Seen(section, ready.disk, mine);
        SameDisk(ready.disk);
        SettleIsOneRename(ready.disk, ready.view, op, rec, rev, now, io);
        RenameIsOutside(section, ready.disk, out.disk, mine);
      }
    }
  }

  lemma SameDisk(d: Disk)
    ensures OneRename(d, d)
  {
  }

  lemma RepairIsOneRename(d: Disk, v: View, io: Io)
    ensures OneRename(d, Repair(d, v, io).disk)
  {
  }

  lemma SettleIsOneRename(d: Disk, v: View, op: Operation, rec: RegisteredToolFunction,
                          rev: Option<PresentationRevision>, now: nat, io: Io)
    ensures OneRename(d, Settle(d, v, op, rec, rev, now, io).disk)
  {
    hide Decide, AdditionOf, Add;
  }

  lemma BeginIsOneRename(d: Disk, v: View, now: nat, io: Io)
    ensures OneRename(d, BeginWrite(d, v, now, io).disk)
  {
  }

  // ── reload and restart ──────────────────────────────────────────────────────

  /** A power loss and a new process that loads what is left and syncs it is a restart of the section. */
  lemma PowerLossIsARestart<T>(section: Index -> T, s: System, step: Step, mine: View)
    requires step.LosePower? && Enabled(s, step) && Loadable(step.index)
    ensures var d := Next(s, step).disk;
            var loaded := Load(d, FRESH_VIEW, true);
            && loaded.error.None?
            && Seen(section, StoreSteps.Synced(d), loaded.view)
               == Restarted(Seen(section, s.disk, mine), section(Base(step.index)))
  {
    ContainedOne(section, step.index);
    assert section(Base(step.index)) in Contained(section, s.disk.indexExposed);
  }
}
