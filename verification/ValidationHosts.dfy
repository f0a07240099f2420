/**
 Validation requests in a file that several Stores share: operations whose saves fail in any way, writes of
 other Stores, reloads, and crashes that restart on any exposed content.
 */
module ValidationHosts {
  import opened SharedFile
  import opened Wrappers
  import opened ValidationRequests

  /**
   What happens to a live process: its own operation, a save it makes for another section, the write of another
   Store, a reload.
   */
  datatype Activity =
    | Did(op: Op, save: SaveOutcome)
    | Resaved(save: SaveOutcome)
    | Others(ops: seq<Op>, synced: bool)
    | Reread

  datatype Event = During(activity: Activity) | Crashed(to: Ledger)

  /** Another Store has applied its own operations to the file's content. */
  function Act(h: Host<Ledger>, a: Activity): Host<Ledger> {
    match a
    case Did(op, save) => Perform(h, op, save)
    case Resaved(save) => Save(h, save).host
    case Others(ops, synced) => Overwritten(h, RunAll(h.file, ops), synced)
    case Reread => Reloaded(h)
  }

  function React(h: Host<Ledger>, e: Event): Host<Ledger> {
    match e
    case During(a) => Act(h, a)
    case Crashed(to) => Restarted(h, to)
  }

  function After(h: Host<Ledger>, es: seq<Event>): Host<Ledger>
    decreases |es|
  {
    if es == [] then h else After(React(h, es[0]), es[1..])
  }

  // ── what each content is made of ────────────────────────────────────────────

  /** The operations that made each content of a host, from the ledger it started on. */
  datatype Trail = Trail(mem: seq<Op>, file: seq<Op>, exposed: set<seq<Op>>)

  ghost predicate Tracks(start: Ledger, t: Trail, h: Host<Ledger>) {
    && h.mem == RunAll(start, t.mem)
    && h.file == RunAll(start, t.file)
    && (forall s :: s in t.exposed ==> RunAll(start, s) in h.exposed)
    && (forall l :: l in h.exposed ==> exists s :: s in t.exposed && RunAll(start, s) == l)
  }

  ghost function Pick(start: Ledger, trails: set<seq<Op>>, l: Ledger): (s: seq<Op>)
    requires exists s :: s in trails && RunAll(start, s) == l
    ensures s in trails && RunAll(start, s) == l
  {
    var s :| s in trails && RunAll(start, s) == l;
    s
  }

  /** How an event extends, replaces or cuts back the trails. */
  ghost function Follow(start: Ledger, t: Trail, h: Host<Ledger>, e: Event): Trail
    requires Tracks(start, t, h)
  {
    match e
    case During(Did(op, save)) =>
      if Apply(h.mem, op).answer != Accepted then t
      else if save == Refused then t.(mem := t.mem + [op])
      else if h.seen != h.file then t.(mem := t.file)
      else
        var s := t.mem + [op];
        Trail(s, s, if save == Synced then {s} else t.exposed + {s})
    case During(Resaved(save)) =>
      if save == Refused then t
      else if h.seen != h.file then t.(mem := t.file)
      else Trail(t.mem, t.mem, if save == Synced then {t.mem} else t.exposed + {t.mem})
    case During(Others(ops, synced)) =>
      var s := t.file + ops;
      t.(file := s, exposed := if synced then {s} else t.exposed + {s})
    case During(Reread) => t.(mem := t.file)
    case Crashed(to) =>
      if to in h.exposed then var s := Pick(start, t.exposed, to); Trail(s, s, {s}) else t
  }

  lemma {:induction false} RunConcat(l: Ledger, a: seq<Op>, b: seq<Op>)
    ensures RunAll(l, a + b) == RunAll(RunAll(l, a), b)
    decreases |a|
  {
    hide Apply;
    if a == [] {
      assert a + b == b;
    } else {
      assert (a + b)[1..] == a[1..] + b;
      RunConcat(Apply(l, a[0]).ledger, a[1..], b);
    }
  }

  lemma RunOneMore(l: Ledger, a: seq<Op>, op: Op)
    ensures RunAll(l, a + [op]) == Apply(RunAll(l, a), op).ledger
  {
    hide Apply;
    RunConcat(l, a, [op]);
    assert [op][1..] == [];
  }

  lemma FollowTracks(start: Ledger, t: Trail, h: Host<Ledger>, e: Event)
    requires Tracks(start, t, h)
    ensures Tracks(start, Follow(start, t, h, e), React(h, e))
  {
    hide Apply, RunAll;
    match e
    case During(Did(op, _)) => RunOneMore(start, t.mem, op);
    case During(Resaved(_)) =>
    case During(Others(ops, _)) => RunConcat(start, t.file, ops);
    case During(Reread) =>
    case Crashed(_) =>
  }

  ghost function TrailAfter(start: Ledger, t: Trail, h: Host<Ledger>, es: seq<Event>): (last: Trail)
    requires Tracks(start, t, h)
    ensures Tracks(start, last, After(h, es))
    decreases |es|
  {
    if es == [] then t
    else
      FollowTracks(start, t, h, es[0]);
      TrailAfter(start, Follow(start, t, h, es[0]), React(h, es[0]), es[1..])
  }

  const NO_TRAIL := Trail([], [], {[]})

  function Trails(t: Trail): set<seq<Op>> {
    {t.mem, t.file} + t.exposed
  }

  ghost predicate AllAsCalled(ops: seq<Op>) {
    forall i :: 0 <= i < |ops| ==> AsCalled(ops[i])
  }

  ghost predicate EventAsCalled(e: Event) {
    match e
    case During(Did(op, _)) => AsCalled(op)
    case During(Others(ops, _)) => AllAsCalled(ops)
    case _ => true
  }

  ghost predicate TrailAsCalled(t: Trail) {
    forall s :: s in Trails(t) ==> AllAsCalled(s)
  }

  lemma {:induction false} TrailsAreAsCalled(start: Ledger, t: Trail, h: Host<Ledger>, es: seq<Event>)
    requires Tracks(start, t, h) && TrailAsCalled(t)
    requires forall i :: 0 <= i < |es| ==> EventAsCalled(es[i])
    ensures TrailAsCalled(TrailAfter(start, t, h, es))
    decreases |es|
  {
    hide Apply, AsCalled, RunAll, Tracks, After, React;
    if es != [] {
      FollowTracks(start, t, h, es[0]);
      TrailsAreAsCalled(start, Follow(start, t, h, es[0]), React(h, es[0]), es[1..]);
    }
  }

  /**
   First terminal result wins, in every content. Whatever saves fail, whoever else writes the file, whenever
   this Store reloads or crashes: memory, the file and every content a crash may bring back are each made by a
   series of operations, and each shows a request Succeeded, or Failed, exactly as the first terminal result of
   its own series that reached the request alive says.
   */
  lemma FirstVerdictWinsEverywhere(start: Ledger, es: seq<Event>, id: string)
    requires id != "" && (forall i :: 0 <= i < |es| ==> EventAsCalled(es[i]))
    requires !StatusIs(start, id, Succeeded) && !StatusIs(start, id, Failed)
    ensures Tracks(start, NO_TRAIL, Start(start))
    ensures var t, h := TrailAfter(start, NO_TRAIL, Start(start), es), After(Start(start), es);
            && Tracks(start, t, h)
            && forall s :: s in Trails(t) ==>
                 && (StatusIs(RunAll(start, s), id, Succeeded) <==> FirstVerdict(start, s, id) == Some(true))
                 && (StatusIs(RunAll(start, s), id, Failed) <==> FirstVerdict(start, s, id) == Some(false))
  {
    hide StatusIs, FirstVerdict, AsCalled, After, Follow;
    StartTracks(start);
    var t := TrailAfter(start, NO_TRAIL, Start(start), es);
    TrailsAreAsCalled(start, NO_TRAIL, Start(start), es);
    forall s | s in Trails(t)
      ensures StatusIs(RunAll(start, s), id, Succeeded) <==> FirstVerdict(start, s, id) == Some(true)
      ensures StatusIs(RunAll(start, s), id, Failed) <==> FirstVerdict(start, s, id) == Some(false)
    {
      FirstVerdictWins(start, s, id);
    }
  }

  lemma StartTracks(start: Ledger)
    ensures Tracks(start, NO_TRAIL, Start(start))
  {
    assert RunAll(start, []) == start;
    assert [] in NO_TRAIL.exposed;
  }

  // ── what is acknowledged stays ──────────────────────────────────────────────

  /** Every content holds exactly this record. */
  ghost predicate Settled(h: Host<Ledger>, r: Request) {
    forall l :: l in Contents(h) ==> Lookup(l.requests, r.id) == Some(r)
  }

  lemma SettledStep(h: Host<Ledger>, e: Event, r: Request)
    requires Terminal(r.status) && Settled(h, r)
    ensures Settled(React(h, e), r)
  {
    hide Apply, Lookup, RunAll;
    match e
    case During(Did(op, _)) => TerminalIsFrozen(h.mem, op, r.id);
    case During(Others(ops, _)) => FrozenForever(h.file, ops, r.id);
    case _ =>
  }

  lemma {:induction false} SettledForever(h: Host<Ledger>, es: seq<Event>, r: Request)
    requires Terminal(r.status) && Settled(h, r)
    ensures Settled(After(h, es), r)
    decreases |es|
  {
    if es != [] {
      SettledStep(h, es[0], r);
      SettledForever(React(h, es[0]), es[1..], r);
    }
  }

  lemma AnsweredIsEverywhere(h: Host<Ledger>, op: Op, save: SaveOutcome)
    requires Reply(h, op, save) == Accepted
    ensures Perform(h, op, save) == Start(Apply(h.mem, op).ledger)
  {
    hide Apply;
    SuccessIsDurable(h, Apply(h.mem, op).ledger, save);
  }

  /**
   A terminal result that was answered as stored holds in every content, through everything that can follow:
   later operations of any Store, refused or half-done saves, reloads, and crashes at any point.
   */
  lemma AcknowledgedVerdictSurvives(h: Host<Ledger>, op: Op, save: SaveOutcome, es: seq<Event>, id: string)
    requires id != "" && Decides(h.mem, op, id) && Reply(h, op, save) == Accepted
    ensures var r := Lookup(Apply(h.mem, op).ledger.requests, id);
            && r.Some? && r.value.status == (if op.succeeded then Succeeded else Failed)
            && Settled(After(Perform(h, op, save), es), r.value)
  {
    hide Apply, Decides;
    VerdictTakesEffect(h.mem, op, id);
    AnsweredIsEverywhere(h, op, save);
    SettledForever(Perform(h, op, save), es, Lookup(Apply(h.mem, op).ledger.requests, id).value);
  }

  /** Every content holds the request, with this work and at least this far. */
  ghost predicate AtLeast(h: Host<Ledger>, id: string, work: Work, progress: nat) {
    forall l :: l in Contents(h) ==>
      var r := Lookup(l.requests, id); r.Some? && r.value.work == work && Progress(r.value.status) >= progress
  }

  lemma AtLeastStep(h: Host<Ledger>, e: Event, id: string, work: Work, progress: nat)
    requires AtLeast(h, id, work, progress)
    ensures AtLeast(React(h, e), id, work, progress)
  {
    hide Apply, Lookup, RunAll, Progress;
    match e
    case During(Did(op, _)) =>
      NeverRegresses(h.mem, [op], id);
      OneOperation(h.mem, op);
    case During(Others(ops, _)) => NeverRegresses(h.file, ops, id);
    case _ =>
  }

  lemma OneOperation(l: Ledger, op: Op)
    ensures RunAll(l, [op]) == Apply(l, op).ledger
  {
    hide Apply;
    assert [op][1..] == [];
  }

  lemma {:induction false} AtLeastForever(h: Host<Ledger>, es: seq<Event>, id: string, work: Work, progress: nat)
    requires AtLeast(h, id, work, progress)
    ensures AtLeast(After(h, es), id, work, progress)
    decreases |es|
  {
    hide AtLeast, React;
    if es != [] {
      AtLeastStep(h, es[0], id, work, progress);
      AtLeastForever(React(h, es[0]), es[1..], id, work, progress);
    }
  }

  /**
   No acknowledged progress is ever lost. Once any operation is answered as stored, no later reload, crash,
   failed save or write of another Store shows any request less far than memory had it then, or with other work.
   */
  lemma AcknowledgedProgressStays(h: Host<Ledger>, op: Op, save: SaveOutcome, es: seq<Event>, id: string)
    requires Reply(h, op, save) == Accepted && Lookup(Apply(h.mem, op).ledger.requests, id).Some?
    ensures var r := Lookup(Apply(h.mem, op).ledger.requests, id).value;
            AtLeast(After(Perform(h, op, save), es), id, r.work, Progress(r.status))
  {
    hide Apply, Lookup, Progress;
    AnsweredIsEverywhere(h, op, save);
    var r := Lookup(Apply(h.mem, op).ledger.requests, id).value;
    AtLeastForever(Perform(h, op, save), es, id, r.work, Progress(r.status));
  }

  // ── redelivery ──────────────────────────────────────────────────────────────

  predicate Holds(l: Ledger, id: string) {
    FindCheck(l.checks, id).Some?
  }

  /** Every content holds the check under this id, with these facts. */
  ghost predicate HeldEverywhere(h: Host<Ledger>, id: string, facts: string) {
    forall l :: l in Contents(h) ==> Holds(l, id) && l.checks[FindCheck(l.checks, id).value].facts == facts
  }

  lemma HeldStays(l: Ledger, ops: seq<Op>, id: string)
    requires Holds(l, id)
    ensures FindCheck(RunAll(l, ops).checks, id) == FindCheck(l.checks, id)
    ensures RunAll(l, ops).checks[FindCheck(l.checks, id).value] == l.checks[FindCheck(l.checks, id).value]
  {
    hide RunAll, FindCheck;
    ChecksOnlyGrow(l, ops);
    FindCheckInExtension(l.checks, RunAll(l, ops).checks, id);
  }

  lemma HeldEverywhereStep(h: Host<Ledger>, e: Event, id: string, facts: string)
    requires HeldEverywhere(h, id, facts)
    ensures HeldEverywhere(React(h, e), id, facts)
  {
    hide Apply, RunAll, FindCheck;
    match e
    case During(Did(op, _)) =>
      HeldStays(h.mem, [op], id);
      OneOperation(h.mem, op);
    case During(Others(ops, _)) => HeldStays(h.file, ops, id);
    case _ =>
  }

  lemma {:induction false} HeldEverywhereForever(h: Host<Ledger>, es: seq<Event>, id: string, facts: string)
    requires HeldEverywhere(h, id, facts)
    ensures HeldEverywhere(After(h, es), id, facts)
    decreases |es|
  {
    hide HeldEverywhere, React;
    if es != [] {
      HeldEverywhereStep(h, es[0], id, facts);
      HeldEverywhereForever(React(h, es[0]), es[1..], id, facts);
    }
  }

  lemma AppendedIsHeld(l: Ledger, op: Op)
    requires op.Report? && Appended(l, op.check)
    ensures var now := Apply(l, op).ledger;
            Apply(l, op).answer == Accepted && Holds(now, op.check.checkId)
            && now.checks[FindCheck(now.checks, op.check.checkId).value].facts == op.check.facts
  {
    RedeliveryHasNoEffect(l, op, [], op);
  }

  /**
   Once a delivery was answered as stored, delivering under its id again, after whatever failed saves, reloads,
   crashes and other writers, is answered as a duplicate, or as a conflict for other facts, and changes nothing.
   */
  lemma AcknowledgedRedeliveryHasNoEffect(h: Host<Ledger>, first: Op, save: SaveOutcome, es: seq<Event>,
                                          again: Op, fate: SaveOutcome)
    requires first.Report? && Appended(h.mem, first.check) && Reply(h, first, save) == Accepted
    requires again.Report? && again.check.checkId == first.check.checkId
    ensures var last := After(Perform(h, first, save), es);
            && Perform(last, again, fate) == last
            && Reply(last, again, fate) == (if again.check.facts == first.check.facts then Duplicate else Conflict)
  {
    hide After;
    AppendedIsHeld(h.mem, first);
    AnsweredIsEverywhere(h, first, save);
    HeldEverywhereForever(Perform(h, first, save), es, first.check.checkId, first.check.facts);
  }

  // ── what a duplicate answer is worth ────────────────────────────────────────

  /** This event delivers no check under id that is accepted, nor does another Store. */
  predicate NotDelivered(h: Host<Ledger>, e: Event, id: string) {
    match e
    case During(Did(op, _)) => !(op.Report? && op.check.checkId == id && Appended(h.mem, op.check))
    case During(Others(ops, _)) => forall i :: 0 <= i < |ops| ==> !(ops[i].Report? && ops[i].check.checkId == id)
    case _ => true
  }

  predicate NeverDelivered(h: Host<Ledger>, es: seq<Event>, id: string)
    decreases |es|
  {
    es != [] ==> NotDelivered(h, es[0], id) && NeverDelivered(React(h, es[0]), es[1..], id)
  }

  /**
   What makes a check that memory holds durable: a save that went through, for whatever section, a restart, or
   another Store's synced write on top of a file that already has the check.
   */
  predicate Anchors(h: Host<Ledger>, e: Event, id: string) {
    match e
    case During(Did(op, save)) => Reply(h, op, save) == Accepted
    case During(Resaved(save)) => Save(h, save).ok
    case During(Others(_, synced)) => synced && Holds(h.file, id)
    case During(Reread) => false
    case Crashed(to) => to in h.exposed
  }

  predicate Anchored(h: Host<Ledger>, es: seq<Event>, id: string)
    decreases |es|
  {
    es != [] && (Anchors(h, es[0], id) || Anchored(React(h, es[0]), es[1..], id))
  }

  ghost predicate Durable(h: Host<Ledger>, id: string) {
    forall l :: l in h.exposed ==> Holds(l, id)
  }

  /** Either the check has reached the file, or no content but memory has it. */
  ghost predicate Sorted(h: Host<Ledger>, id: string) {
    && h.file in h.exposed
    && if Holds(h.file, id) then Holds(h.mem, id) else forall l :: l in h.exposed ==> !Holds(l, id)
  }

  lemma UndeliveredOne(l: Ledger, op: Op, id: string)
    requires !(op.Report? && op.check.checkId == id && Appended(l, op.check))
    ensures Holds(Apply(l, op).ledger, id) <==> Holds(l, id)
  {
    hide Find;
    var now := Apply(l, op).ledger;
    if Holds(l, id) {
      OneOperation(l, op);
      HeldStays(l, [op], id);
    } else {
      assert forall k :: 0 <= k < |l.checks| ==> now.checks[k] == l.checks[k];
    }
  }

  lemma {:induction false} UndeliveredAll(l: Ledger, ops: seq<Op>, id: string)
    requires forall i :: 0 <= i < |ops| ==> !(ops[i].Report? && ops[i].check.checkId == id)
    ensures Holds(RunAll(l, ops), id) <==> Holds(l, id)
    decreases |ops|
  {
    hide Holds, Apply;
    if ops != [] {
      UndeliveredOne(l, ops[0], id);
      UndeliveredAll(Apply(l, ops[0]).ledger, ops[1..], id);
    }
  }

  lemma DurableStep(h: Host<Ledger>, e: Event, id: string)
    requires Sorted(h, id) && NotDelivered(h, e, id)
    ensures Sorted(React(h, e), id)
    ensures Holds(React(h, e).mem, id) ==> Holds(h.mem, id) || Holds(h.file, id)
    ensures Holds(React(h, e).mem, id) ==> (Durable(React(h, e), id) <==> Durable(h, id) || Anchors(h, e, id))
  {
    hide Holds, Apply, RunAll;
    match e
    case During(Did(op, save)) =>
      UndeliveredOne(h.mem, op, id);
    case During(Resaved(save)) =>
    case During(Others(ops, synced)) =>
      UndeliveredAll(h.file, ops, id);
    case During(Reread) =>
    case Crashed(to) =>
  }

  /** What memory has lost for good does not come back without another delivery. */
  lemma {:induction false} LostStaysLost(h: Host<Ledger>, es: seq<Event>, id: string)
    requires Sorted(h, id) && !Holds(h.mem, id) && NeverDelivered(h, es, id)
    ensures !Holds(After(h, es).mem, id)
    decreases |es|
  {
    hide Holds, React, Anchors, Durable;
    if es != [] {
      DurableStep(h, es[0], id);
      LostStaysLost(React(h, es[0]), es[1..], id);
    }
  }

  lemma {:induction false} DurableExactly(h: Host<Ledger>, es: seq<Event>, id: string)
    requires Sorted(h, id) && NeverDelivered(h, es, id) && Holds(After(h, es).mem, id)
    ensures Durable(After(h, es), id) <==> Durable(h, id) || Anchored(h, es, id)
    decreases |es|
  {
    hide Holds, React, Anchors, Durable, Sorted, NotDelivered;
    if es != [] {
      var next := React(h, es[0]);
      DurableStep(h, es[0], id);
      if Holds(next.mem, id) {
        DurableExactly(next, es[1..], id);
      } else {
        LostStaysLost(next, es[1..], id);
      }
    }
  }

  /** Before its first delivery a check is in no content. */
  ghost predicate Fresh(h: Host<Ledger>, id: string) {
    h.file in h.exposed && forall l :: l in Contents(h) ==> !Holds(l, id)
  }

  /**
   What a duplicate answer is worth. A check kept in memory when its save failed is answered as a duplicate
   when it is delivered again, and nothing is saved then. The check is in every content a crash may bring back
   exactly when its delivery was answered as stored, or since then a save of this Store went through, or this
   process restarted, or another Store synced the file after the check had reached it.
   */
  lemma DuplicateIsDurableExactly(h: Host<Ledger>, op: Op, save: SaveOutcome, es: seq<Event>, again: SaveOutcome)
    requires op.Report? && op.check.checkId != "" && Fresh(h, op.check.checkId)
    requires NeverDelivered(Perform(h, op, save), es, op.check.checkId)
    requires Reply(After(Perform(h, op, save), es), op, again) == Duplicate
    ensures var held := Perform(h, op, save);
            && Perform(After(held, es), op, again) == After(held, es)
            && (Durable(After(held, es), op.check.checkId)
                <==> Reply(h, op, save) == Accepted || Anchored(held, es, op.check.checkId))
  {
    hide After, NeverDelivered, Anchored;
    var held, id := Perform(h, op, save), op.check.checkId;
    assert h.mem in Contents(h);
    AppendedIsHeld(h.mem, op);
    FirstDelivery(h, op, save);
    DurableExactly(held, es, id);
  }

  lemma FirstDelivery(h: Host<Ledger>, op: Op, save: SaveOutcome)
    requires op.Report? && op.check.checkId != "" && Fresh(h, op.check.checkId)
    ensures var held := Perform(h, op, save);
            && Sorted(held, op.check.checkId)
            && (Durable(held, op.check.checkId) <==> Reply(h, op, save) == Accepted)
  {
    hide Apply;
    assert h.mem in Contents(h) && h.file in Contents(h);
    assert forall l :: l in h.exposed ==> l in Contents(h);
    AppendedIsHeld(h.mem, op);
    SuccessIsDurable(h, Apply(h.mem, op).ledger, save);
  }

  /**
   Any first delivery whose save is refused: its caller is told so, a redelivery is answered as a duplicate and
   saves nothing, and no content a crash may bring back has the check.
   */
  lemma RefusedDeliveryIsAnsweredDuplicate(h: Host<Ledger>, op: Op, again: SaveOutcome)
    requires op.Report? && op.check.checkId != "" && Fresh(h, op.check.checkId)
    ensures var held := Perform(h, op, Refused);
            && Reply(h, op, Refused) == SaveFailed
            && Reply(held, op, again) == Duplicate && Perform(held, op, again) == held
            && forall l :: l in held.exposed ==> !Holds(l, op.check.checkId)
  {
    assert h.mem in Contents(h) && forall l :: l in h.exposed ==> l in Contents(h);
    AppendedIsHeld(h.mem, op);
    DeliveredAgain(h.mem, op);
  }

  lemma DeliveredAgain(l: Ledger, op: Op)
    requires op.Report? && Appended(l, op.check)
    ensures Apply(Apply(l, op).ledger, op) == Outcome(Apply(l, op).ledger, Duplicate)
  {
    RedeliveryHasNoEffect(l, op, [], op);
  }

  /** Such a delivery: the first check of an empty store. */
  lemma UnsavedCheckIsAnsweredDuplicate()
    ensures var op := Report(Check("c", "f", 1), "", "", true, true, "", 1);
            var h := Start(Ledger([], []));
            var held := Perform(h, op, Refused);
            && Fresh(h, "c") && Reply(h, op, Refused) == SaveFailed
            && Reply(held, op, Synced) == Duplicate && Perform(held, op, Synced) == held
            && !Durable(held, "c")
  {
    hide Apply;
    var op := Report(Check("c", "f", 1), "", "", true, true, "", 1);
    var h := Start(Ledger([], []));
    RefusedDeliveryIsAnsweredDuplicate(h, op, Synced);
    assert Ledger([], []) in Perform(h, op, Refused).exposed;
  }
}
