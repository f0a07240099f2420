/**
 What the shared index promises over whole runs: see StoreRuns for the system and its invariant.
 */
module StoreTheorems {
  import opened Wrappers
  import opened IndexModel
  import opened Registration
  import opened StoreSteps
  import opened StoreRuns

  // ── durability of acknowledgements ──────────────────────────────────────────

  /** The answer of a registration step. */
  function AnswerOf(s: System, step: Step): Result<Registered, RegisterError>
    requires Enabled(s, step) && step.RegisterFunction?
  {
    Register(s.disk, s.live[step.id], step.op, step.rec, step.rev, step.now, step.io).result
  }

  /** The answer of an ordinary write. */
  function WriteAnswerOf(s: System, step: Step): WriteResult
    requires Enabled(s, step) && step.WriteOrdinary?
  {
    OrdinaryWrite(s.disk, s.live[step.id], step.w, step.now, step.io).result
  }

  lemma {:induction false} AcksOnlyGrow(states: seq<System>, steps: seq<Step>, i: nat, j: nat)
    requires IsRun(states, steps) && i <= j < |states|
    ensures states[i].acks <= states[j].acks
    decreases j
  {
    if i < j { AcksOnlyGrow(states, steps, i, j - 1); }
  }

  /**
   Acknowledged means durable: once any Store answers a registration with success, then from that
   moment on, whatever the other Stores do, whichever file operations fail and however often power is
   lost, the index on disk and every index a power loss could expose is loadable, holds the receipt,
   and holds exactly the record that was returned.
   */
  lemma AcknowledgedIsDurable(states: seq<System>, steps: seq<Step>, k: nat, j: nat)
    requires IsRun(states, steps) && Init(states[0])
    requires k < j < |states| && steps[k].RegisterFunction? && AnswerOf(states[k], steps[k]).Ok?
    ensures var stored := AnswerOf(states[k], steps[k]).value.stored;
            && (forall c :: c in states[j].disk.indexExposed ==>
                  Loadable(c) && OnFile(Base(c), steps[k].op, stored))
            && Loadable(states[j].disk.index) && OnFile(Base(states[j].disk.index), steps[k].op, stored)
  {
    var ack := Ack(steps[k].op, AnswerOf(states[k], steps[k]).value.stored);
    assert states[k + 1] == Next(states[k], steps[k]) && ack in states[k + 1].acks;
    AcksOnlyGrow(states, steps, k + 1, j);
    RunKeepsInv(states, steps, j);
    assert Durable(states[j].disk, ack);
  }

  /**
   Request idempotency across Stores, failures and power losses: any two successes under one request
   id carried the same version, fingerprint and basis, and were answered with the same record,
   lifecycle phase included.
   */
  lemma AcknowledgementsAgree(states: seq<System>, steps: seq<Step>, i: nat, j: nat)
    requires IsRun(states, steps) && Init(states[0])
    requires i < |steps| && steps[i].RegisterFunction? && AnswerOf(states[i], steps[i]).Ok?
    requires j < |steps| && steps[j].RegisterFunction? && AnswerOf(states[j], steps[j]).Ok?
    requires steps[i].op.requestID == steps[j].op.requestID
    ensures steps[i].op == steps[j].op
    ensures AnswerOf(states[i], steps[i]).value.stored == AnswerOf(states[j], steps[j]).value.stored
  {
    var last := |steps|;
    AcknowledgedIsDurable(states, steps, i, last);
    AcknowledgedIsDurable(states, steps, j, last);
    OnFileTwiceAgrees(Base(states[last].disk.index),
                      steps[i].op, AnswerOf(states[i], steps[i]).value.stored,
                      steps[j].op, AnswerOf(states[j], steps[j]).value.stored);
  }

  // ── well-formedness of every reachable index ─────────────────────────────────

  /**
   Every index the run can show, now or after a power loss: receipts unique by request id, records
   by casHash, origins named, one envelope per digest, and receipts traced to the record they name.
   */
  lemma EveryIndexWellFormed(states: seq<System>, steps: seq<Step>, k: nat, c: Content)
    requires IsRun(states, steps) && Init(states[0]) && k < |states|
    requires c in states[k].disk.indexExposed && Loadable(c)
    ensures WellFormed(Base(c), states[k].legacy)
  {
    RunKeepsInv(states, steps, k);
  }

  lemma {:induction false} LegacyFixed(states: seq<System>, steps: seq<Step>, k: nat)
    requires IsRun(states, steps) && k < |states|
    ensures states[k].legacy == states[0].legacy
  {
    if k > 0 { LegacyFixed(states, steps, k - 1); }
  }

  /**
   From an empty directory, any two records under one digest, whatever their image or casHash, were
   registered with the same validation policy and the same environment hints.
   */
  lemma EnvelopesAgreeFromEmpty(states: seq<System>, steps: seq<Step>, k: nat, c: Content, i: nat, j: nat)
    requires IsRun(states, steps) && k < |states|
    requires states[0] == System(Disk(Absent, {Absent}, NoFence, {NoFence}), map[], {}, {}, {})
    requires c in states[k].disk.indexExposed && c.File? && Loadable(c)
    requires i < |c.index.toolFunctions| && j < |c.index.toolFunctions|
    requires c.index.toolFunctions[i].toolFunctionDigest == c.index.toolFunctions[j].toolFunctionDigest != ""
    ensures OriginNamed(c.index.receipts, c.index.toolFunctions[i])
    ensures OriginNamed(c.index.receipts, c.index.toolFunctions[j])
    ensures EnvelopesAgree(c.index.receipts, c.index.toolFunctions[i], c.index.toolFunctions[j])
  {
    EveryIndexWellFormed(states, steps, k, c);
    LegacyFixed(states, steps, k);
    assert Versioned(c.index.toolFunctions[i]) && Versioned(c.index.toolFunctions[j]);
  }

  /**
   A receipt says what its record was made from. In every index the run can show, every receipt names a record on
   file, and the first receipt under that record's request id was written with the same version, fingerprint and
   basis, all known; only what was on file before versioned writes is exempt.
   */
  lemma ReceiptsRepeatTheOrigin(states: seq<System>, steps: seq<Step>, k: nat, c: Content, i: nat)
    returns (record: nat, origin: nat)
    requires IsRun(states, steps) && Init(states[0]) && k < |states|
    requires c in states[k].disk.indexExposed && c.File? && Loadable(c)
    requires i < |c.index.receipts| && c.index.receipts[i].casHash !in states[0].legacy
    ensures record < |c.index.toolFunctions| && origin < |c.index.receipts|
    ensures var r := c.index.toolFunctions[record];
            && r.casHash == c.index.receipts[i].casHash && r.canonicalizationVersion != ""
            && (forall n :: 0 <= n < |c.index.toolFunctions| && c.index.toolFunctions[n].casHash == r.casHash
                  ==> n == record)
            && r.requestID != "" && c.index.receipts[origin].requestID == r.requestID
            && (forall n :: 0 <= n < |c.index.receipts| && c.index.receipts[n].requestID == r.requestID ==> n == origin)
    ensures var receipt, first := c.index.receipts[i], c.index.receipts[origin];
            && receipt.canonicalizationVersion == first.canonicalizationVersion != ""
            && receipt.requestFingerprint == first.requestFingerprint != ""
            && receipt.requestBasis == first.requestBasis != NoBasis
  {
    EveryIndexWellFormed(states, steps, k, c);
    LegacyFixed(states, steps, k);
    assert Traced(c.index, c.index.receipts[i]);
    record :| 0 <= record < |c.index.toolFunctions|
              && TracedTo(c.index.receipts, c.index.receipts[i], c.index.toolFunctions[record]);
    origin := FindReceipt(c.index.receipts, c.index.toolFunctions[record].requestID).value;
  }

  // ── no lost update ──────────────────────────────────────────────────────────

  /** One committed change of the index file. */
  datatype Event = Wrote(w: Write) | Added(a: Addition)

  function ApplyEvent(idx: Index, e: Event): Index {
    match e
    case Wrote(w) => Mutate(idx, w)
    case Added(a) => Add(idx, a)
  }

  function Apply(idx: Index, es: seq<Event>): Index
    decreases |es|
  {
    if es == [] then idx else ApplyEvent(Apply(idx, es[..|es| - 1]), es[|es| - 1])
  }

  function Writes(ws: seq<Write>): seq<Event> {
    seq(|ws|, i requires 0 <= i < |ws| => Wrote(ws[i]))
  }

  lemma {:induction false} ApplyWrites(idx: Index, ws: seq<Write>)
    ensures Apply(idx, Writes(ws)) == MutateAll(idx, ws)
    decreases |ws|
  {
    if ws != [] {
      assert Writes(ws)[..|ws| - 1] == Writes(ws[..|ws| - 1]);
      ApplyWrites(idx, ws[..|ws| - 1]);
    }
  }

  lemma {:induction false} ApplyThen(idx: Index, a: seq<Event>, b: seq<Event>)
    ensures Apply(Apply(idx, a), b) == Apply(idx, a + b)
    decreases |b|
  {
    if b == [] {
      assert a + b == a;
    } else {
      assert (a + b)[..|a + b| - 1] == a + b[..|b| - 1];
      ApplyThen(idx, a, b[..|b| - 1]);
    }
  }

  /**
   What an ordinary write commits. Answered Done it is its Store's unsaved writes and then the write itself;
   answered with a failure it is that or nothing, by whether the file was renamed.
   */
  predicate WriteEvents(own: seq<Event>, w: Write, answer: WriteResult, es: seq<Event>) {
    match answer
    case Rejected => es == []
    case Done => es == own + [Wrote(w)]
    case Failed(e) => es == if e == PersistedNotDurable then own + [Wrote(w)] else []
  }

  /**
   What a registration commits, `own` being the unsaved writes its Store enters it with. A success that adds
   something commits them and then the addition its decision calls for; a failure does so only when the rename
   went through and the directory could not be synced. A repair may commit them alone.
   */
  predicate RegisterEvents(own: seq<Event>, d: Decision, op: Operation, rec: RegisteredToolFunction,
                           rev: Option<PresentationRevision>, now: nat, answer: Result<Registered, RegisterError>,
                           es: seq<Event>)
  {
    match answer
    case Ok(r) => !d.Refuse? && r.created == d.Create?
                  && (if d.Replay? then OwnOrNone(own, es) else WithAddition(own, d, op, rec, rev, now, es))
    case Err(why) => OwnOrNone(own, es)
                     || (why == StoreRefused(PersistedNotDurable) && WithAddition(own, d, op, rec, rev, now, es))
  }

  predicate OwnOrNone(own: seq<Event>, es: seq<Event>) {
    es == [] || es == own
  }

  predicate WithAddition(own: seq<Event>, d: Decision, op: Operation, rec: RegisteredToolFunction,
                         rev: Option<PresentationRevision>, now: nat, es: seq<Event>)
  {
    (d.Reuse? || d.Create?) &&
    es == own + [Added(AdditionOf(d, op, rec, rev, now))]
  }

  /** The unsaved writes a Store enters a registration with: none if it first has to refresh its view. */
  function Unsaved(d: Disk, v: View): seq<Event> {
    if v.epoch != 0 && v.generation == d.index then Writes(v.pending) else []
  }

  /** The changes a step commits, given its answer; no other step commits any. */
  ghost predicate OwnEvents(s: System, step: Step, es: seq<Event>)
    requires Enabled(s, step)
  {
    match step
    case WriteOrdinary(id, w, _, _) => WriteEvents(Writes(s.live[id].pending), w, WriteAnswerOf(s, step), es)
    case RegisterFunction(id, op, rec, rev, now, _) =>
      RegisterEvents(Unsaved(s.disk, s.live[id]), Decide(Base(s.disk.index), op, rec), op, rec, rev, now,
                     AnswerOf(s, step), es)
    case _ => es == []
  }

  /** Answers that promise a synced file: a write done, a receipt or record added. */
  predicate AnsweredDurably(s: System, step: Step)
    requires Enabled(s, step)
  {
    match step
    case WriteOrdinary(_, _, _, _) => WriteAnswerOf(s, step).Done?
    case RegisterFunction(_, op, rec, _, _, _) => AnswerOf(s, step).Ok? && !Decide(Base(s.disk.index), op, rec).Replay?
    case _ => false
  }

  predicate Durably(d: Disk) {
    d.indexExposed == {d.index}
  }

  /** A rename exposes one content more; a sync leaves only the visible one. */
  predicate GrowsOrSyncs(before: Disk, after: Disk) {
    Durably(after) || after.indexExposed <= before.indexExposed + {after.index}
  }

  /** The index file after is the one before with these changes. */
  ghost predicate Changes(before: Disk, after: Disk, es: seq<Event>) {
    Stamp(Base(after.index)) == Apply(Stamp(Base(before.index)), es)
  }

  /** The same, with at most one rename. */
  ghost predicate Commits(before: Disk, after: Disk, es: seq<Event>) {
    Changes(before, after, es) && GrowsOrSyncs(before, after)
  }

  lemma {:induction false} EnvelopeCheckSections(a: Index, b: Index, basis: RequestBasis, digest: string, from: nat)
    requires SameToolFunctions(a, b) && basis.Basis? && from <= |a.toolFunctions|
    ensures EnvelopeCheckFrom(a, basis, digest, from) == EnvelopeCheckFrom(b, basis, digest, from)
    decreases |a.toolFunctions| - from
  {
    hide EnvelopeObjection;
    if from < |a.toolFunctions| {
      ObjectionSections(a, b, a.toolFunctions[from], basis);
      EnvelopeCheckSections(a, b, basis, digest, from + 1);
    }
  }

  lemma ObjectionSections(a: Index, b: Index, record: RegisteredToolFunction, basis: RequestBasis)
    requires SameToolFunctions(a, b) && basis.Basis?
    ensures EnvelopeObjection(a, record, basis) == EnvelopeObjection(b, record, basis)
  {
  }

  /** A decision looks at nothing but the ToolFunction sections. */
  lemma DecideSections(a: Index, b: Index, op: Operation, rec: RegisteredToolFunction)
    requires SameToolFunctions(a, b)
    ensures Decide(a, op, rec) == Decide(b, op, rec)
  {
    if op.requestBasis.Basis? {
      EnvelopeCheckSections(a, b, op.requestBasis, rec.toolFunctionDigest, 0);
    }
  }

  /** Persisting a view commits exactly its pending writes, and whatever was added on top. */
  lemma PersistCommits(d: Disk, v: View, idx: Index, extra: seq<Event>, replaceOk: bool, syncOk: bool)
    requires ViewOk(d, v) && v.generation == d.index
    requires Stamp(idx) == Apply(Stamp(v.idx), extra)
    ensures var out := Persist(d, v.(idx := idx), replaceOk, syncOk);
            Commits(d, out.disk, if replaceOk then Writes(v.pending) + extra else [])
  {
    ApplyWrites(Stamp(Base(d.index)), v.pending);
    ApplyThen(Stamp(Base(d.index)), Writes(v.pending), extra);
  }

  /** A save puts exactly the view's pending writes on disk, or leaves the file alone, as its error says. */
  lemma SaveCommits(d: Disk, v: View, now: nat, io: Io)
    requires ViewOk(d, v)
    ensures var out := Save(d, v, now, io);
            var renamed := out.error.None? || out.error == Some(PersistedNotDurable);
            && Commits(d, out.disk, if renamed then Writes(v.pending) else [])
            && (out.error.None? ==> Durably(out.disk))
  {
    if v.epoch != 0 { OwnedEnsureChangesNothing(d, v, now, io); }
    if v.generation == d.index {
      PersistCommits(d, v, v.idx, [], io.replaceIndex, io.syncIndex);
      assert Writes(v.pending) + [] == Writes(v.pending);
    }
  }

  lemma WriteCommits(s: System, step: Step) returns (es: seq<Event>)
    requires Inv(s) && Enabled(s, step) && step.WriteOrdinary?
    ensures OwnEvents(s, step, es) && Commits(s.disk, Next(s, step).disk, es)
    ensures AnsweredDurably(s, step) ==> Durably(Next(s, step).disk)
  {
    hide Save, Mutate, Commits, Durably;
    var WriteOrdinary(id, w, now, io) := step;
    var v := s.live[id];
    es := [];
    NothingCommitted(s.disk);
    if Accepts(v.idx, w) {
      var v1 := v.(idx := Mutate(v.idx, w), pending := v.pending + [w]);
      MutatedViewOk(s.disk, v, w);
      SaveCommits(s.disk, v1, now, io);
      assert Writes(v1.pending) == Writes(v.pending) + [Wrote(w)];
      var error := Save(s.disk, v1, now, io).error;
      es := if error.None? || error == Some(PersistedNotDurable) then Writes(v1.pending) else [];
    }
  }

  /** Owning the epoch and refreshing memory leave the index; an fsync of the fence may sync it. */
  lemma BeginCommits(s: System, id: nat, now: nat, io: Io)
    requires id in s.live
    ensures var begun := BeginWrite(s.disk, s.live[id], now, io);
            && Commits(s.disk, begun.disk, [])
            && begun.disk.index == s.disk.index
            && (begun.error.None? ==> Writes(begun.view.pending) == Unsaved(s.disk, s.live[id]))
  {
  }

  lemma PrepareCommits(s: System, id: nat, now: nat, io: Io) returns (es: seq<Event>)
    requires Inv(s) && id in s.live
    ensures var out := Prepare(s.disk, s.live[id], now, io);
            && Commits(s.disk, out.disk, es)
            && SameToolFunctions(Base(s.disk.index), Base(out.disk.index))
            && OwnOrNone(Unsaved(s.disk, s.live[id]), es)
            && (out.error.None? ==> es + Writes(out.view.pending) == Unsaved(s.disk, s.live[id]))
  {
    hide BeginWrite, EpochsUnique, WellFormed, Durable, Settled;
    es := [];
    NothingCommitted(s.disk);
    if io.lock {
      BeginCommits(s, id, now, io);
      BeginStage(s, id, now, io);
      var begun := BeginWrite(s.disk, s.live[id], now, io);
      var own := Unsaved(s.disk, s.live[id]);
      assert [] + own == own && own + Writes([]) == own by { NoWrites(); }
      if begun.error.None? && begun.view.uncertain {
        var s1 := With(s, id, begun.disk, begun.view);
        LiveView(s, id);
        LiveView(s1, id);
        PersistCommits(begun.disk, begun.view, begun.view.idx, [], io.replaceForRepair, io.syncForRepair);
        if io.replaceForRepair {
          es := Writes(begun.view.pending);
          assert Writes(begun.view.pending) + [] == es;
        }
      }
    }
  }

  lemma SettleCommits(d: Disk, v: View, op: Operation, rec: RegisteredToolFunction,
                      rev: Option<PresentationRevision>, now: nat, io: Io) returns (es: seq<Event>)
    requires ViewOk(d, v) && v.generation == d.index
    ensures var out := Settle(d, v, op, rec, rev, now, io);
            && Commits(d, out.disk, es)
            && var decision := Decide(v.idx, op, rec);
               if (decision.Reuse? || decision.Create?) && (out.error.None? || out.error == Some(PersistedNotDurable))
               then es == Writes(v.pending) + [Added(AdditionOf(decision, op, rec, rev, now))]
                    && (out.error.None? ==> Durably(out.disk))
               else es == []
  {
    hide Decide, AdditionOf, ViewOk;
    es := [];
    NothingCommitted(d);
    var decision := Decide(v.idx, op, rec);
    if decision.Reuse? || decision.Create? {
      var a := AdditionOf(decision, op, rec, rev, now);
      assert Apply(Stamp(v.idx), [Added(a)]) == Stamp(Add(v.idx, a)) by {
        assert [Added(a)][..0] == [];
      }
      PersistCommits(d, v, Add(v.idx, a), [Added(a)], io.replaceIndex, io.syncIndex);
      if io.replaceIndex {
        es := Writes(v.pending) + [Added(a)];
      }
    }
  }

  lemma NothingCommitted(d: Disk)
    ensures Commits(d, d, [])
  {
  }

  /**
   A registration commits in two parts: what preparing it re-saves, and what its decision adds. `between` is the
   disk in which it decides.
   */
  lemma RegisterCommits(s: System, step: Step) returns (between: Disk, es: seq<Event>, more: seq<Event>)
    requires Inv(s) && Enabled(s, step) && step.RegisterFunction?
    ensures OwnEvents(s, step, es + more)
    ensures Commits(s.disk, between, es) && Commits(between, Next(s, step).disk, more)
    ensures AnsweredDurably(s, step) ==> Durably(Next(s, step).disk)
  {
    hide Inv, Prepare, Settle, Decide, AdditionOf, Writes, Commits, Base, Durably, Unsaved;
    var RegisterFunction(id, op, rec, rev, now, io) := step;
    between, es, more := s.disk, [], [];
    NothingCommitted(s.disk);
    if op.Complete() {
      es := PrepareCommits(s, id, now, io);
      var ready := Prepare(s.disk, s.live[id], now, io);
      between := ready.disk;
      NothingCommitted(ready.disk);
      if ready.error.None? {
        ReadyView(s, id, now, io);
        DecideSections(Base(s.disk.index), ready.view.idx, op, rec);
        more := SettleCommits(ready.disk, ready.view, op, rec, rev, now, io);
        var pending := Writes(ready.view.pending);
        assert more != [] ==> es + more == es + pending + more[|pending|..];
      }
      assert es + [] == es;
    }
  }

  lemma NoWrites()
    ensures Writes([]) == []
  {
  }

  lemma ReadyView(s: System, id: nat, now: nat, io: Io)
    requires Inv(s) && id in s.live && Prepare(s.disk, s.live[id], now, io).error.None?
    ensures var ready := Prepare(s.disk, s.live[id], now, io);
            && ViewOk(ready.disk, ready.view) && ready.view.generation == ready.disk.index
            && SameToolFunctions(Base(ready.disk.index), ready.view.idx)
  {
    hide Prepare;
    PrepareStage(s, id, now, io);
    var ready := Prepare(s.disk, s.live[id], now, io);
    assert With(s, id, ready.disk, ready.view).live[id] == ready.view;
  }

  lemma OneAfterTheOther(before: Disk, between: Disk, after: Disk, es: seq<Event>, more: seq<Event>)
    requires Changes(before, between, es) && Changes(between, after, more)
    ensures Changes(before, after, es + more)
  {
    hide Base;
    ApplyThen(Stamp(Base(before.index)), es, more);
  }

  /**
   One step changes the file by what its answer says its own Store committed and by nothing else, and a success
   that adds something leaves it synced.
   */
  lemma StepCommits(s: System, step: Step) returns (es: seq<Event>)
    requires Inv(s) && Enabled(s, step) && !step.LosePower?
    ensures OwnEvents(s, step, es) && Changes(s.disk, Next(s, step).disk, es)
    ensures AnsweredDurably(s, step) ==> Durably(Next(s, step).disk)
  {
    match step
    case WriteOrdinary(_, _, _, _) => es := WriteCommits(s, step);
    case RegisterFunction(_, _, _, _, _, _) =>
      var between, first, more := RegisterCommits(s, step);
      OneAfterTheOther(s.disk, between, Next(s, step).disk, first, more);
      es := first + more;
    case _ => es := [];
  }

  function Flatten(history: seq<seq<Event>>): seq<Event>
    decreases |history|
  {
    if history == [] then [] else Flatten(history[..|history| - 1]) + history[|history| - 1]
  }

  ghost predicate NoPowerLoss(steps: seq<Step>, i: nat, j: nat) {
    forall k :: i <= k < j && k < |steps| ==> !steps[k].LosePower?
  }

  /**
   No lost update: as long as power stays on, the index file is at every moment the serial execution,
   in step order, of what each step's own Store committed. No Store ever erases another's write.
   */
  lemma {:induction false} SerialHistory(states: seq<System>, steps: seq<Step>, k: nat)
    returns (history: seq<seq<Event>>)
    requires IsRun(states, steps) && Inv(states[0]) && k < |states| && NoPowerLoss(steps, 0, k)
    ensures |history| == k
    ensures forall n :: 0 <= n < k ==> OwnEvents(states[n], steps[n], history[n])
    ensures Changes(states[0].disk, states[k].disk, Flatten(history))
    decreases k
  {
    hide Inv, Enabled, Next, Base, OwnEvents, AnsweredDurably;
    if k == 0 {
      history := [];
    } else {
      var before := SerialHistory(states, steps, k - 1);
      RunKeepsInv(states, steps, k - 1);
      var es := StepCommits(states[k - 1], steps[k - 1]);
      history := before + [es];
      assert history[..k - 1] == before;
      ApplyThen(Stamp(Base(states[0].disk.index)), Flatten(before), es);
    }
  }

  // ── the history through power losses ────────────────────────────────────────

  /** The content is the base with a prefix of at least `mark` changes of the history. */
  ghost predicate SerialPrefix(base: Index, c: Content, h: seq<Event>, mark: nat) {
    exists n :: mark <= n <= |h| && Stamp(Base(c)) == Apply(base, h[..n])
  }

  /** The index file is the base with the whole history, and whatever a power loss may expose is such a prefix. */
  ghost predicate Serial(base: Index, d: Disk, h: seq<Event>, mark: nat) {
    && mark <= |h|
    && Stamp(Base(d.index)) == Apply(base, h)
    && forall c :: c in d.indexExposed ==> SerialPrefix(base, c, h, mark)
  }

  /** The part of the history no power loss takes back: all of it right after a sync. */
  function MarkAfter(d: Disk, h: seq<Event>, mark: nat): nat {
    if Durably(d) then |h| else mark
  }

  lemma PrefixGrows(base: Index, c: Content, h: seq<Event>, mark: nat, es: seq<Event>)
    requires SerialPrefix(base, c, h, mark)
    ensures SerialPrefix(base, c, h + es, mark)
  {
    var n :| mark <= n <= |h| && Stamp(Base(c)) == Apply(base, h[..n]);
    assert (h + es)[..n] == h[..n];
  }

  lemma WholePrefix(base: Index, c: Content, h: seq<Event>)
    requires Stamp(Base(c)) == Apply(base, h)
    ensures forall mark :: 0 <= mark <= |h| ==> SerialPrefix(base, c, h, mark)
  {
    assert h[..|h|] == h;
  }

  lemma SerialStage(base: Index, before: Disk, after: Disk, h: seq<Event>, mark: nat, es: seq<Event>)
    requires Serial(base, before, h, mark) && Commits(before, after, es)
    ensures Serial(base, after, h + es, MarkAfter(after, h + es, mark))
  {
    hide SerialPrefix, Base;
    ApplyThen(base, h, es);
    WholePrefix(base, after.index, h + es);
    forall c | c in before.indexExposed ensures SerialPrefix(base, c, h + es, mark) {
      PrefixGrows(base, c, h, mark, es);
    }
  }

  /**
   How a step moves the history. A power loss cuts it somewhere behind the mark. Any other step appends what its
   answer says, keeps the mark or moves it up, and after a sync the mark is at the end.
   */
  ghost predicate Moves(s: System, step: Step, h: seq<Event>, mark: nat, h': seq<Event>, mark': nat)
    requires Enabled(s, step)
  {
    if step.LosePower? then
      mark <= mark' == |h'| && h' <= h
    else
      && |h'| >= |h| && h' == h + h'[|h|..] && OwnEvents(s, step, h'[|h|..])
      && mark <= mark' <= |h'| && (Durably(Next(s, step).disk) || AnsweredDurably(s, step) ==> mark' == |h'|)
  }

  lemma PowerLossCuts(s: System, step: Step, base: Index, h: seq<Event>, mark: nat)
    returns (h': seq<Event>, mark': nat)
    requires Enabled(s, step) && step.LosePower? && Serial(base, s.disk, h, mark)
    ensures Serial(base, Next(s, step).disk, h', mark') && Moves(s, step, h, mark, h', mark')
  {
    var n :| mark <= n <= |h| && Stamp(Base(step.index)) == Apply(base, h[..n]);
    h', mark' := h[..n], n;
    WholePrefix(base, step.index, h');
  }

  lemma Appended(h: seq<Event>, es: seq<Event>)
    ensures |h + es| >= |h| && (h + es)[|h|..] == es
  {
  }

  lemma StepAppends(s: System, step: Step, base: Index, h: seq<Event>, mark: nat)
    returns (h': seq<Event>, mark': nat)
    requires Inv(s) && Enabled(s, step) && !step.LosePower? && Serial(base, s.disk, h, mark)
    ensures Serial(base, Next(s, step).disk, h', mark') && Moves(s, step, h, mark, h', mark')
  {
    hide Inv, Serial, Commits, OwnEvents, AnsweredDurably, Durably;
    var after := Next(s, step).disk;
    if step.RegisterFunction? {
      var between, es, more := RegisterCommits(s, step);
      SerialStage(base, s.disk, between, h, mark, es);
      SerialStage(base, between, after, h + es, MarkAfter(between, h + es, mark), more);
      h' := h + (es + more);
      assert h + es + more == h';
      mark' := MarkAfter(after, h', MarkAfter(between, h + es, mark));
      MarksGrow(base, s.disk, h, mark, es + more);
      Appended(h, es + more);
    } else {
      var es := [];
      if step.WriteOrdinary? { es := WriteCommits(s, step); } else { OthersCommitNothing(s, step); }
      SerialStage(base, s.disk, after, h, mark, es);
      h', mark' := h + es, MarkAfter(after, h + es, mark);
      MarksGrow(base, s.disk, h, mark, es);
      Appended(h, es);
    }
  }

  lemma MarksGrow(base: Index, d: Disk, h: seq<Event>, mark: nat, es: seq<Event>)
    requires Serial(base, d, h, mark)
    ensures mark <= |h| <= |h + es|
  {
  }

  lemma OthersCommitNothing(s: System, step: Step)
    requires Enabled(s, step) && !step.LosePower? && !step.RegisterFunction? && !step.WriteOrdinary?
    ensures OwnEvents(s, step, []) && Commits(s.disk, Next(s, step).disk, []) && !AnsweredDurably(s, step)
  {
  }

  /** hs[k] is the history before steps[k], and its first marks[k] changes are past any power loss. */
  ghost predicate IsHistory(states: seq<System>, steps: seq<Step>, k: nat, hs: seq<seq<Event>>, marks: seq<nat>)
    requires IsRun(states, steps) && k < |states|
  {
    && |hs| == |marks| == k + 1 && hs[0] == [] && marks[0] == 0
    && (forall i :: 0 <= i <= k ==> Serial(Stamp(Base(states[0].disk.index)), states[i].disk, hs[i], marks[i]))
    && (forall i :: 0 <= i < k ==> Moves(states[i], steps[i], hs[i], marks[i], hs[i + 1], marks[i + 1]))
  }

  lemma StartsSerial(d: Disk)
    requires Durably(d)
    ensures Serial(Stamp(Base(d.index)), d, [], 0)
  {
    WholePrefix(Stamp(Base(d.index)), d.index, []);
  }

  /**
   No lost update, power losses included. From a synced file on, the index file is at every moment the serial
   execution of a history, and so is every content a power loss may expose, of a prefix that holds all that was
   committed before the last successful sync. A step appends what its answer says it committed; a power loss cuts
   the history to such a prefix and nothing else shortens it.
   */
  lemma {:induction false} SerialThroughPowerLoss(states: seq<System>, steps: seq<Step>, k: nat)
    returns (hs: seq<seq<Event>>, marks: seq<nat>)
    requires IsRun(states, steps) && Inv(states[0]) && Durably(states[0].disk) && k < |states|
    ensures IsHistory(states, steps, k, hs, marks)
    decreases k
  {
    hide Inv, Durably, Serial, Moves, Enabled, Next, Base;
    var base := Stamp(Base(states[0].disk.index));
    if k == 0 {
      hs, marks := [[]], [0];
      StartsSerial(states[0].disk);
    } else {
      hs, marks := SerialThroughPowerLoss(states, steps, k - 1);
      RunKeepsInv(states, steps, k - 1);
      var s, step := states[k - 1], steps[k - 1];
      var h, mark;
      if step.LosePower? {
        h, mark := PowerLossCuts(s, step, base, hs[k - 1], marks[k - 1]);
      } else {
        h, mark := StepAppends(s, step, base, hs[k - 1], marks[k - 1]);
      }
      hs, marks := hs + [h], marks + [mark];
    }
  }

  /** What is behind a mark stays in every later history, power losses included. */
  lemma {:induction false} SyncedHistoryIsKept(states: seq<System>, steps: seq<Step>, k: nat, hs: seq<seq<Event>>,
                                               marks: seq<nat>, i: nat, j: nat)
    requires IsRun(states, steps) && k < |states| && IsHistory(states, steps, k, hs, marks) && i <= j <= k
    ensures marks[i] <= marks[j] <= |hs[j]| && marks[i] <= |hs[i]| && hs[i][..marks[i]] <= hs[j]
    decreases j
  {
    hide Enabled, Next, Base, OwnEvents, AnsweredDurably, Durably, SerialPrefix;
    assert Serial(Stamp(Base(states[0].disk.index)), states[i].disk, hs[i], marks[i]);
    assert Serial(Stamp(Base(states[0].disk.index)), states[j].disk, hs[j], marks[j]);
    if i < j {
      SyncedHistoryIsKept(states, steps, k, hs, marks, i, j - 1);
      assert Moves(states[j - 1], steps[j - 1], hs[j - 1], marks[j - 1], hs[j], marks[j]);
    }
  }

  /** The content is the base with these changes and then others. */
  ghost predicate Continues(base: Index, c: Content, kept: seq<Event>) {
    exists later :: Stamp(Base(c)) == Apply(base, kept + later)
  }

  /**
   An answered write is kept: at every later moment, power losses included, the index file and every content a
   power loss may expose is the serial execution of what the file held before, then the Store's unsaved writes
   and the write answered Done, and then further changes.
   */
  lemma AnsweredWriteIsKept(states: seq<System>, steps: seq<Step>, i: nat, j: nat) returns (before: seq<Event>)
    requires IsRun(states, steps) && Inv(states[0]) && Durably(states[0].disk) && i < j < |states|
    requires steps[i].WriteOrdinary? && WriteAnswerOf(states[i], steps[i]).Done?
    ensures var base := Stamp(Base(states[0].disk.index));
            var own := Writes(states[i].live[steps[i].id].pending) + [Wrote(steps[i].w)];
            && Stamp(Base(states[i].disk.index)) == Apply(base, before)
            && states[j].disk.index in states[j].disk.indexExposed
            && forall c :: c in states[j].disk.indexExposed ==> Continues(base, c, before + own)
  {
    hide Next, Base, Durably, WriteAnswerOf, Apply, ViewOk, Continues, SerialPrefix;
    RunKeepsInv(states, steps, j);
    var hs, marks := SerialThroughPowerLoss(states, steps, j);
    SyncedHistoryIsKept(states, steps, j, hs, marks, i + 1, j);
    var base := Stamp(Base(states[0].disk.index));
    var own := Writes(states[i].live[steps[i].id].pending) + [Wrote(steps[i].w)];
    before := hs[i];
    assert Moves(states[i], steps[i], hs[i], marks[i], hs[i + 1], marks[i + 1]);
    assert hs[i + 1] == before + own && marks[i + 1] == |hs[i + 1]|;
    assert hs[i + 1][..marks[i + 1]] == before + own;
    assert Serial(base, states[i].disk, hs[i], marks[i]) && Serial(base, states[j].disk, hs[j], marks[j]);
    forall c | c in states[j].disk.indexExposed ensures Continues(base, c, before + own) {
      KeptInPrefix(base, c, hs[j], marks[j], before + own);
    }
  }

  lemma KeptInPrefix(base: Index, c: Content, h: seq<Event>, mark: nat, kept: seq<Event>)
    requires SerialPrefix(base, c, h, mark) && kept <= h && |kept| <= mark
    ensures Continues(base, c, kept)
  {
    var n :| mark <= n <= |h| && Stamp(Base(c)) == Apply(base, h[..n]);
    assert h[..n] == kept + h[|kept|..n];
  }

  lemma {:induction false} ApplyGrows(idx: Index, es: seq<Event>)
    ensures ToolFunctionsPrefix(idx, Apply(idx, es))
    decreases |es|
  {
    if es != [] {
      ApplyGrows(idx, es[..|es| - 1]);
    }
  }

  /** While power stays on, records, revisions and receipts are only ever appended to. */
  lemma {:induction false} HistoryOnlyGrows(states: seq<System>, steps: seq<Step>, i: nat, j: nat)
    requires IsRun(states, steps) && Inv(states[0]) && i <= j < |states| && NoPowerLoss(steps, i, j)
    ensures ToolFunctionsPrefix(Base(states[i].disk.index), Base(states[j].disk.index))
    decreases j
  {
    if i < j {
      HistoryOnlyGrows(states, steps, i, j - 1);
      RunKeepsInv(states, steps, j - 1);
      var es := StepCommits(states[j - 1], steps[j - 1]);
      ApplyGrows(Stamp(Base(states[j - 1].disk.index)), es);
    }
  }

  /**
   Memory matches file: after any outcome of any step, every Store's ToolFunction sections are those
   of its recorded generation, and its whole memory is that generation plus its own unsaved writes.
   */
  lemma MemoryMatchesFile(states: seq<System>, steps: seq<Step>, k: nat, id: nat)
    requires IsRun(states, steps) && Init(states[0]) && k < |states| && id in states[k].live
    ensures var v := states[k].live[id];
            && Loadable(v.generation)
            && SameToolFunctions(v.idx, Base(v.generation))
            && Stamp(v.idx) == Apply(Stamp(Base(v.generation)), Writes(v.pending))
  {
    RunKeepsInv(states, steps, k);
    var v := states[k].live[id];
    assert ViewOk(states[k].disk, v);
    ApplyWrites(Stamp(Base(v.generation)), v.pending);
  }

  // ── fencing ─────────────────────────────────────────────────────────────────

  /** No two live Stores ever hold the same write epoch. */
  lemma EpochsDistinct(states: seq<System>, steps: seq<Step>, k: nat, a: nat, b: nat)
    requires IsRun(states, steps) && Init(states[0]) && k < |states|
    requires a in states[k].live && b in states[k].live && a != b
    requires states[k].live[a].epoch != 0
    ensures states[k].live[a].epoch != states[k].live[b].epoch
  {
    RunKeepsInv(states, steps, k);
  }

  predicate ActsAs(s: System, step: Step, id: nat)
  {
    match step
    case RegisterFunction(i, _, _, _, _, _) => i == id
    case WriteOrdinary(i, _, _, _) => i == id
    case _ => false
  }

  /** A superseded Store changes nothing on disk through either write path. */
  lemma FencedChangesNothing(s: System, step: Step, id: nat)
    requires Enabled(s, step) && ActsAs(s, step, id)
    requires s.live[id].epoch != 0 && !Current(s.disk, s.live[id])
    ensures Next(s, step).disk == s.disk
    ensures step.RegisterFunction? ==> AnswerOf(s, step).Err?
  {
    var v := s.live[id];
    match step
    case RegisterFunction(_, op, rec, _, now, io) =>
      assert EnsureWriter(s.disk, v, now, io).error.Some?;
    case WriteOrdinary(_, w, now, io) =>
      assert EnsureWriter(s.disk, v.(idx := Mutate(v.idx, w), pending := v.pending + [w]), now, io).error.Some?;
  }

  lemma EnsureMovesFenceUp(d: Disk, v: View, now: nat, io: Io)
    ensures FenceMoves(d.fence, EnsureWriter(d, v, now, io).disk.fence)
  {
    hide Base, Loadable;
  }

  lemma SaveMovesFenceUp(d: Disk, v: View, now: nat, io: Io)
    ensures FenceMoves(d.fence, Save(d, v, now, io).disk.fence)
  {
    hide EnsureWriter, Base, Loadable;
    EnsureMovesFenceUp(d, v, now, io);
  }

  lemma RegisterMovesFenceUp(d: Disk, v: View, op: Operation, rec: RegisteredToolFunction,
                             rev: Option<PresentationRevision>, now: nat, io: Io)
    ensures FenceMoves(d.fence, Register(d, v, op, rec, rev, now, io).disk.fence)
  {
    hide EnsureWriter, Decide, Add, AdditionOf, Answer, Stamp, Base, Loadable;
    EnsureMovesFenceUp(d, v, now, io);
  }

  lemma FenceOnlyMovesUp(s: System, step: Step)
    requires Enabled(s, step) && !step.LosePower?
    ensures FenceMoves(s.disk.fence, Next(s, step).disk.fence)
  {
    hide Register, Save, Accepts, Mutate, FenceMoves;
    SameFence(s.disk.fence);
    match step
    case RegisterFunction(id, op, rec, rev, now, io) => RegisterMovesFenceUp(s.disk, s.live[id], op, rec, rev, now, io);
    case WriteOrdinary(id, w, now, io) =>
      var v := s.live[id];
      SaveMovesFenceUp(s.disk, v.(idx := Mutate(v.idx, w), pending := v.pending + [w]), now, io);
    case _ =>
  }

  lemma SameFence(f: FenceFile)
    ensures FenceMoves(f, f)
  {
  }

  predicate Above(f: FenceFile, epoch: int) {
    f.Fence? && f.epoch > epoch
  }

  lemma {:induction false} StaysAbove(states: seq<System>, steps: seq<Step>, i: nat, j: nat, epoch: int)
    requires IsRun(states, steps) && i <= j < |states| && NoPowerLoss(steps, i, j)
    requires Above(states[i].disk.fence, epoch)
    ensures Above(states[j].disk.fence, epoch)
    decreases j
  {
    hide Next, Enabled;
    if i < j {
      StaysAbove(states, steps, i, j - 1, epoch);
      FenceOnlyMovesUp(states[j - 1], steps[j - 1]);
    }
  }

  /**
   Fencing is permanent: once the fence is above an epoch, no Store holding that epoch ever changes
   the directory again, nor acknowledges a registration. (A power loss kills every holder.)
   */
  lemma FencedForGood(states: seq<System>, steps: seq<Step>, i: nat, j: nat, id: nat, epoch: int)
    requires IsRun(states, steps) && i <= j < |steps| && NoPowerLoss(steps, i, j)
    requires epoch != 0 && Above(states[i].disk.fence, epoch)
    requires ActsAs(states[j], steps[j], id) && states[j].live[id].epoch == epoch
    ensures states[j + 1].disk == states[j].disk
    ensures steps[j].RegisterFunction? ==> AnswerOf(states[j], steps[j]).Err?
  {
    StaysAbove(states, steps, i, j, epoch);
    FencedChangesNothing(states[j], steps[j], id);
  }

  /** A successful claim supersedes every epoch handed out before it. */
  lemma ClaimSupersedes(s: System, id: nat, now: nat, io: Io, other: nat)
    requires Inv(s) && id in s.live && other in s.live && other != id && s.live[other].epoch != 0
    requires s.live[id].epoch == 0 && EnsureWriter(s.disk, s.live[id], now, io).error.None?
    ensures var out := EnsureWriter(s.disk, s.live[id], now, io);
            Current(out.disk, out.view) && Above(out.disk.fence, s.live[other].epoch)
  {
    assert ViewOk(s.disk, s.live[other]);
  }
}
