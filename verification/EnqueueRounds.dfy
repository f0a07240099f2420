/**
 What repeated passes of the enqueue-retry loop achieve for one request, whatever other writers do before,
 during and between them, as long as nothing re-arms it.
 */
module EnqueueRounds {
  import opened SharedFile
  import opened Wrappers
  import opened ValidationRequests
  import opened ValidationHosts
  import opened RetryBackoff
  import opened EnqueueRetry

  /** Other writers: anything but a re-arm and the loop's own writes. */
  predicate FromOutside(op: Op) {
    match op
    case Create(_, _) => true
    case Transition(_, to, e) =>
      || (to == Queued && e.Acknowledge?)
      || (to == Unavailable && e.FirstRefusal?)
      || (to == Interrupted && e.NoEdit?)
    case UpdateRetry(_, _) => false
    case Report(_, _, _, _, _, _, _) => true
  }

  ghost predicate Outside(ops: seq<Op>) {
    forall i :: 0 <= i < |ops| ==> FromOutside(ops[i])
  }

  predicate Waiting(r: Request) {
    r.status == EnqueuePending || r.status == Unavailable
  }

  /** What a request satisfies as long as nothing re-arms it. */
  predicate Tame(r: Request) {
    (r.status == EnqueuePending ==> r.attempts == 0) && r.status != Unset
  }

  // ── ids ─────────────────────────────────────────────────────────────────────

  ghost predicate UniqueIds(rs: seq<Request>) {
    forall i, j :: 0 <= i < j < |rs| ==> rs[i].id != rs[j].id
  }

  lemma SameIdsStayUnique(rs: seq<Request>, now: seq<Request>)
    requires UniqueIds(rs) && |rs| == |now| && forall k :: 0 <= k < |rs| ==> now[k].id == rs[k].id
    ensures UniqueIds(now)
  {
  }

  /** Request ids stay unique: creation refuses a used one and nothing else renames a record. */
  lemma IdsStayUnique(l: Ledger, op: Op)
    requires UniqueIds(l.requests)
    ensures UniqueIds(Apply(l, op).ledger.requests)
  {
    hide Edges, FindCheck, Correlated;
    var rs, now := l.requests, Apply(l, op).ledger.requests;
    if op.Report? && Find(rs, op.requestId).Some? {
      KeepsIdentity(rs[Find(rs, op.requestId).value], op.jobId, op.terminal, op.succeeded, op.reason, op.now);
    }
    if !op.Create? { SameIdsStayUnique(rs, now); }
  }

  lemma {:induction false} IdsStayUniqueAll(l: Ledger, ops: seq<Op>)
    requires UniqueIds(l.requests)
    ensures UniqueIds(RunAll(l, ops).requests)
    decreases |ops|
  {
    hide Apply, UniqueIds;
    if ops != [] {
      IdsStayUnique(l, ops[0]);
      IdsStayUniqueAll(Apply(l, ops[0]).ledger, ops[1..]);
    }
  }

  lemma {:induction false} TurnsKeepIdsUnique(c: Config, now: nat, ticks: Ticks, theirs: Landing, l: Ledger,
                                              recs: seq<Request>, i: nat)
    requires Sane(c) && i <= |recs| && UniqueIds(l.requests)
    ensures UniqueIds(Turns(c, now, ticks, theirs, l, recs, i).requests)
    decreases |recs| - i
  {
    hide Apply, UniqueIds, OwnOp, RunAll;
    if i < |recs| {
      var rec := recs[i];
      var met, own := RunAll(l, theirs(i)), OwnOp(c, now, ticks(rec.id), rec);
      IdsStayUniqueAll(l, theirs(i));
      if own.Some? { IdsStayUnique(met, own.value); }
      TurnsKeepIdsUnique(c, now, ticks, theirs, OneTurn(c, now, ticks(rec.id), theirs(i), l, rec), recs, i + 1);
    }
  }

  /** A listing holds the record its id finds, once. */
  lemma ListingIsExact(rs: seq<Request>, status: Status, id: string)
    requires UniqueIds(rs) && Lookup(rs, id).Some?
    ensures forall r :: r in Listed(rs, status) && r.id == id ==> r == Lookup(rs, id).value
    ensures Lookup(rs, id).value.status == status <==> Lookup(rs, id).value in Listed(rs, status)
  {
    ListedAre(rs, status);
    var k := Find(rs, id).value;
    forall r | r in Listed(rs, status) && r.id == id ensures r == rs[k] {
      var j :| 0 <= j < |rs| && rs[j] == r;
      assert !(j < k) && !(k < j);
    }
  }

  lemma UniqueTail(recs: seq<Request>)
    requires UniqueIds(recs) && recs != []
    ensures UniqueIds(recs[1..]) && forall r :: r in recs[1..] ==> r.id != recs[0].id
    ensures forall r :: r in recs <==> r == recs[0] || r in recs[1..]
  {
    var rest := recs[1..];
    assert recs == [recs[0]] + rest;
    assert forall j :: 0 <= j < |rest| ==> rest[j] == recs[j + 1];
  }

  lemma {:induction false} ListedUnique(rs: seq<Request>, status: Status)
    requires UniqueIds(rs)
    ensures UniqueIds(Listed(rs, status))
    decreases |rs|
  {
    if rs != [] {
      UniqueTail(rs);
      ListedUnique(rs[1..], status);
      ListedAre(rs[1..], status);
      var tail := Listed(rs[1..], status);
      assert forall j :: 0 <= j < |tail| ==> tail[j] in tail;
    }
  }

  // ── what other writers can do to a request ──────────────────────────────────

  /** Where r can be after other writers: where it was, refused by its first enqueue, or gone ahead. */
  predicate Drift(r: Request, f: Request) {
    && f.id == r.id && f.work == r.work && f.requestedAt == r.requestedAt && f.nextAttemptAt == r.nextAttemptAt
    && f.status != Unset
    && (f.attempts == r.attempts || f.attempts == 1)
    && (f == r || !Waiting(f) || (r.status == EnqueuePending && f.status == Unavailable && f.attempts == 1))
    && (!Waiting(r) ==> !Waiting(f))
  }

  lemma DriftTransitive(a: Request, b: Request, c: Request)
    requires Drift(a, b) && Drift(b, c)
    ensures Drift(a, c)
  {
  }

  lemma DriftKeepsTame(a: Request, b: Request)
    requires Drift(a, b) && Tame(a)
    ensures Tame(b)
  {
  }

  lemma ResultDrifts(r: Request, job: string, terminal: bool, ok: bool, reason: string, now: nat)
    requires r.status != Unset
    ensures Drift(r, Correlated(r, job, terminal, ok, reason, now))
  {
  }

  lemma OutsideDrifts(l: Ledger, r: Request, op: Op)
    requires FromOutside(op) && Tame(r)
    ensures Drift(r, Advance(l, r, op))
  {
    hide FindCheck, Correlated;
    if op.Report? { ResultDrifts(r, op.jobId, op.terminal, op.succeeded, op.reason, op.now); }
  }

  lemma {:induction false} OthersDrift(l: Ledger, ops: seq<Op>, id: string)
    requires Outside(ops) && Lookup(l.requests, id).Some? && Tame(Lookup(l.requests, id).value)
    ensures var f := Lookup(RunAll(l, ops).requests, id);
            f.Some? && Drift(Lookup(l.requests, id).value, f.value)
    decreases |ops|
  {
    hide Find, Advance, Apply, FromOutside, Drift, Tame;
    var r := Lookup(l.requests, id).value;
    if ops == [] {
      Still(r);
    } else {
      EffectIsLocal(l, ops[0], id);
      OutsideDrifts(l, r, ops[0]);
      var next := Apply(l, ops[0]).ledger;
      DriftKeepsTame(r, Lookup(next.requests, id).value);
      OthersDrift(next, ops[1..], id);
      DriftTransitive(r, Lookup(next.requests, id).value, Lookup(RunAll(l, ops).requests, id).value);
    }
  }

  lemma Still(r: Request)
    requires Tame(r)
    ensures Drift(r, r)
  {
  }

  // ── turns ───────────────────────────────────────────────────────────────────

  /** The loop's own operation on the record it finds. */
  function Hit(op: Op, r: Request): Request
    requires op.Transition? || op.UpdateRetry?
  {
    match op
    case Transition(_, to, e) => Moved(r, to, e)
    case UpdateRetry(_, e) => if r.status == Unavailable then Amend(e, r) else r
  }

  function Acted(c: Config, now: nat, t: Tick, snapshot: Request, met: Request): Request
    requires Sane(c)
  {
    var own := OwnOp(c, now, t, snapshot);
    if own.Some? then Hit(own.value, met) else met
  }

  /** A turn for another request is an outside event to this one. */
  lemma TurnElsewhere(c: Config, now: nat, t: Tick, theirs: seq<Op>, l: Ledger, rec: Request, id: string)
    requires Sane(c) && Outside(theirs) && rec.id != id
    requires Lookup(l.requests, id).Some? && Tame(Lookup(l.requests, id).value)
    ensures var f := Lookup(OneTurn(c, now, t, theirs, l, rec).requests, id);
            f.Some? && Drift(Lookup(l.requests, id).value, f.value)
  {
    hide Find, Drift, RunAll, Apply, OwnOp, Tame, Moved;
    OthersDrift(l, theirs, id);
    var own := OwnOp(c, now, t, rec);
    if own.Some? { EffectIsLocal(RunAll(l, theirs), own.value, id); }
  }

  lemma TurnHere(c: Config, now: nat, t: Tick, theirs: seq<Op>, l: Ledger, rec: Request)
    returns (met: Request)
    requires Sane(c) && Outside(theirs)
    requires Lookup(l.requests, rec.id).Some? && Tame(Lookup(l.requests, rec.id).value)
    ensures Drift(Lookup(l.requests, rec.id).value, met)
    ensures Lookup(OneTurn(c, now, t, theirs, l, rec).requests, rec.id) == Some(Acted(c, now, t, rec, met))
  {
    hide Find, Drift, RunAll, Apply, OwnOp, Tame, Moved;
    OthersDrift(l, theirs, rec.id);
    met := Lookup(RunAll(l, theirs).requests, rec.id).value;
    var own := OwnOp(c, now, t, rec);
    if own.Some? { EffectIsLocal(RunAll(l, theirs), own.value, rec.id); }
  }

  ghost predicate AllOutside(theirs: Landing) {
    forall i :: Outside(theirs(i))
  }

  /** Turns for other requests. */
  lemma {:induction false} TurnsElsewhere(c: Config, now: nat, ticks: Ticks, theirs: Landing, l: Ledger,
                                          recs: seq<Request>, i: nat, id: string)
    requires Sane(c) && i <= |recs| && AllOutside(theirs)
    requires forall k :: i <= k < |recs| ==> recs[k].id != id
    requires Lookup(l.requests, id).Some? && Tame(Lookup(l.requests, id).value)
    ensures var f := Lookup(Turns(c, now, ticks, theirs, l, recs, i).requests, id);
            f.Some? && Drift(Lookup(l.requests, id).value, f.value)
    decreases |recs| - i
  {
    hide Find, Drift, OneTurn, Tame, Outside;
    var r := Lookup(l.requests, id).value;
    if i == |recs| {
      Still(r);
    } else {
      var next := OneTurn(c, now, ticks(recs[i].id), theirs(i), l, recs[i]);
      TurnElsewhere(c, now, ticks(recs[i].id), theirs(i), l, recs[i], id);
      DriftKeepsTame(r, Lookup(next.requests, id).value);
      TurnsElsewhere(c, now, ticks, theirs, next, recs, i + 1, id);
      DriftTransitive(r, Lookup(next.requests, id).value,
                      Lookup(Turns(c, now, ticks, theirs, l, recs, i).requests, id).value);
    }
  }

  /** Half a pass that lists request id: it drifts, is acted on once from its snapshot, and drifts again. */
  lemma {:induction false} TurnsOnListed(c: Config, now: nat, ticks: Ticks, theirs: Landing, l: Ledger,
                                         recs: seq<Request>, i: nat, p: nat, start: Request)
    returns (met: Request)
    requires Sane(c) && i <= p < |recs| && AllOutside(theirs) && UniqueIds(recs)
    requires Lookup(l.requests, recs[p].id).Some? && Drift(start, Lookup(l.requests, recs[p].id).value)
    requires Tame(start) && start == recs[p]
    ensures Drift(start, met)
    ensures var f := Lookup(Turns(c, now, ticks, theirs, l, recs, i).requests, recs[p].id);
            f.Some? && Drift(Acted(c, now, ticks(start.id), start, met), f.value)
    decreases |recs| - i
  {
    hide Find, Drift, OneTurn, Tame, Outside, Acted;
    var id := recs[p].id;
    var r := Lookup(l.requests, id).value;
    DriftKeepsTame(start, r);
    var next := OneTurn(c, now, ticks(recs[i].id), theirs(i), l, recs[i]);
    if i < p {
      TurnElsewhere(c, now, ticks(recs[i].id), theirs(i), l, recs[i], id);
      DriftTransitive(start, r, Lookup(next.requests, id).value);
      met := TurnsOnListed(c, now, ticks, theirs, next, recs, i + 1, p, start);
    } else {
      met := TurnHere(c, now, ticks(id), theirs(i), l, recs[i]);
      DriftTransitive(start, r, met);
      ActedKeepsTame(c, now, ticks(id), start, met);
      TurnsElsewhere(c, now, ticks, theirs, next, recs, i + 1, id);
    }
  }

  lemma ActedKeepsTame(c: Config, now: nat, t: Tick, start: Request, met: Request)
    requires Sane(c) && Tame(start) && Drift(start, met)
    ensures Tame(Acted(c, now, t, start, met))
  {
    hide NextAt;
  }

  // ── budgets ─────────────────────────────────────────────────────────────────

  function AttemptsLeft(c: Config, r: Request): nat {
    if Waiting(r) && r.attempts < c.maxAttempts then c.maxAttempts - r.attempts else 0
  }

  /** Passes still needed to drive a waiting request out, once each of them finds it due. */
  function PassesLeft(c: Config, r: Request): nat
    requires Sane(c)
  {
    if r.status == EnqueuePending then c.maxAttempts + 2
    else if r.status == Unavailable then AttemptsLeft(c, r) + 1
    else 0
  }

  predicate DueBy(c: Config, r: Request, now: nat) {
    r.nextAttemptAt <= now && r.requestedAt + c.pendingStaleAfter <= now
  }

  /** What a pass leaves of r: a send costs an attempt, and a due request comes closer to leaving. */
  predicate Spent(c: Config, now: nat, t: Tick, r: Request, f: Request)
    requires Sane(c)
  {
    && Tame(f) && f.work == r.work && f.requestedAt == r.requestedAt
    && AttemptsLeft(c, f) + (if Due(c, now, r) then 1 else 0) <= AttemptsLeft(c, r)
    && PassesLeft(c, f) <= PassesLeft(c, r)
    && (Waiting(r) && Replayable(r) && DueBy(c, r, now) ==> PassesLeft(c, f) < PassesLeft(c, r))
    && (f.nextAttemptAt <= r.nextAttemptAt || f.nextAttemptAt <= t.at + 2 * c.maxBackoff)
    && (r.attempts <= c.maxAttempts ==> f.attempts <= c.maxAttempts)
  }

  lemma NextAttemptIsSoon(c: Config, t: Tick, attempt: nat)
    requires Sane(c) && IsJitter(t.jitter) && attempt >= 1
    ensures NextAt(c, t, attempt) <= t.at + 2 * c.maxBackoff
  {
    hide Delay, Spread;
    DelayGrowsToTheCap(c, attempt);
    JitterIsBounded(Delay(c, attempt), c.jitterFrac, t.jitter);
  }

  lemma ActedIsSpent(c: Config, now: nat, t: Tick, r: Request, met: Request, f: Request)
    requires Sane(c) && IsJitter(t.jitter) && Tame(r) && Waiting(r)
    requires Drift(r, met) && Drift(Acted(c, now, t, r, met), f)
    ensures Spent(c, now, t, r, f)
  {
    hide Drift, Spent, Acted;
    ActingSpends(c, now, t, r, met);
    SpentThenDrift(c, now, t, r, Acted(c, now, t, r, met), f);
  }

  lemma ActingSpends(c: Config, now: nat, t: Tick, r: Request, met: Request)
    requires Sane(c) && IsJitter(t.jitter) && Tame(r) && Waiting(r) && Drift(r, met)
    ensures Spent(c, now, t, r, Acted(c, now, t, r, met))
  {
    hide Spent, Acted, Drift;
    if met == r { ActingOnSnapshot(c, now, t, r); } else { ActingTooLate(c, now, t, r, met); }
  }

  lemma ActingOnSnapshot(c: Config, now: nat, t: Tick, r: Request)
    requires Sane(c) && IsJitter(t.jitter) && Tame(r) && Waiting(r)
    ensures Spent(c, now, t, r, Acted(c, now, t, r, r))
  {
    hide NextAt;
    NextAttemptIsSoon(c, t, r.attempts + 1);
  }

  /** The pass finds the request moved on since it was listed: its own write is refused. */
  lemma ActingTooLate(c: Config, now: nat, t: Tick, r: Request, met: Request)
    requires Sane(c) && Tame(r) && Waiting(r) && Drift(r, met) && met != r
    ensures Acted(c, now, t, r, met) == met && Spent(c, now, t, r, met)
  {
    hide NextAt;
  }

  lemma SpentThenDrift(c: Config, now: nat, t: Tick, r: Request, a: Request, f: Request)
    requires Sane(c) && Spent(c, now, t, r, a) && Drift(a, f)
    ensures Spent(c, now, t, r, f)
  {
    hide Due, DueBy, Replayable;
  }

  lemma DriftIsSpent(c: Config, now: nat, t: Tick, r: Request, f: Request)
    requires Sane(c) && Tame(r) && Drift(r, f) && (Waiting(r) ==> r.status == EnqueuePending && f != r)
    ensures Spent(c, now, t, r, f)
  {
  }

  lemma ActedIsNotPending(c: Config, now: nat, t: Tick, r: Request, met: Request, f: Request)
    requires Sane(c) && r.status == Unavailable && Drift(r, met) && Drift(Acted(c, now, t, r, met), f)
    ensures f.status != EnqueuePending
  {
    hide NextAt;
  }

  // ── one pass, seen from one request ─────────────────────────────────────────

  /** A half that lists request id, or one that does not. */
  lemma HalfListed(c: Config, now: nat, ticks: Ticks, theirs: Landing, l: Ledger, status: Status, id: string)
    returns (met: Request)
    requires Sane(c) && AllOutside(theirs) && UniqueIds(l.requests)
    requires Lookup(l.requests, id).Some? && Tame(Lookup(l.requests, id).value)
    requires Lookup(l.requests, id).value.status == status
    ensures var r := Lookup(l.requests, id).value;
            var f := Lookup(Turns(c, now, ticks, theirs, l, Listed(l.requests, status), 0).requests, id);
            Drift(r, met) && f.Some? && Drift(Acted(c, now, ticks(id), r, met), f.value)
  {
    hide Drift, Acted, Turns, Tame, Listed, UniqueIds;
    var r, recs := Lookup(l.requests, id).value, Listed(l.requests, status);
    ListingIsExact(l.requests, status, id);
    ListedUnique(l.requests, status);
    var p :| 0 <= p < |recs| && recs[p] == r;
    Still(r);
    met := TurnsOnListed(c, now, ticks, theirs, l, recs, 0, p, r);
  }

  lemma HalfUnlisted(c: Config, now: nat, ticks: Ticks, theirs: Landing, l: Ledger, status: Status, id: string)
    requires Sane(c) && AllOutside(theirs) && UniqueIds(l.requests)
    requires Lookup(l.requests, id).Some? && Tame(Lookup(l.requests, id).value)
    requires Lookup(l.requests, id).value.status != status
    ensures var f := Lookup(Turns(c, now, ticks, theirs, l, Listed(l.requests, status), 0).requests, id);
            f.Some? && Drift(Lookup(l.requests, id).value, f.value)
  {
    hide Drift, Turns, Tame, Listed, UniqueIds;
    var recs := Listed(l.requests, status);
    ListingIsExact(l.requests, status, id);
    assert forall k :: 0 <= k < |recs| ==> recs[k] in recs;
    TurnsElsewhere(c, now, ticks, theirs, l, recs, 0, id);
  }

  /** One pass, whatever lands during it. */
  lemma PassOnRecord(c: Config, now: nat, ticks: Ticks, theirs: Landing, later: Landing, l: Ledger, id: string)
    requires Sane(c) && AllOutside(theirs) && AllOutside(later) && UniqueIds(l.requests)
    requires Lookup(l.requests, id).Some? && Tame(Lookup(l.requests, id).value) && IsJitter(ticks(id).jitter)
    ensures var after := Pass(c, now, ticks, theirs, later, l);
            && UniqueIds(after.requests) && Lookup(after.requests, id).Some?
            && Spent(c, now, ticks(id), Lookup(l.requests, id).value, Lookup(after.requests, id).value)
  {
    hide Drift, Acted, Turns, Listed, UniqueIds, AllOutside, Spent;
    var r := Lookup(l.requests, id).value;
    var recs := Listed(l.requests, Unavailable);
    var half := Turns(c, now, ticks, theirs, l, recs, 0);
    TurnsKeepIdsUnique(c, now, ticks, theirs, l, recs, 0);
    TurnsKeepIdsUnique(c, now, ticks, later, half, Listed(half.requests, EnqueuePending), 0);
    var f := Lookup(Pass(c, now, ticks, theirs, later, l).requests, id);
    if r.status == Unavailable {
      var met := HalfListed(c, now, ticks, theirs, l, Unavailable, id);
      var h := Lookup(half.requests, id).value;
      ActedIsNotPending(c, now, ticks(id), r, met, h);
      ActedKeepsTame(c, now, ticks(id), r, met);
      DriftKeepsTame(Acted(c, now, ticks(id), r, met), h);
      HalfUnlisted(c, now, ticks, later, half, EnqueuePending, id);
      DriftTransitive(Acted(c, now, ticks(id), r, met), h, f.value);
      ActedIsSpent(c, now, ticks(id), r, met, f.value);
    } else {
      HalfUnlisted(c, now, ticks, theirs, l, Unavailable, id);
      var h := Lookup(half.requests, id).value;
      DriftKeepsTame(r, h);
      if h.status == EnqueuePending {
        PendingStays(r, h);
        var met := HalfListed(c, now, ticks, later, half, EnqueuePending, id);
        ActedIsSpent(c, now, ticks(id), r, met, f.value);
      } else {
        HalfUnlisted(c, now, ticks, later, half, EnqueuePending, id);
        DriftTransitive(r, h, f.value);
        GoneAhead(r, h, f.value);
        DriftIsSpent(c, now, ticks(id), r, f.value);
      }
    }
  }

  lemma PendingStays(r: Request, h: Request)
    requires Drift(r, h) && h.status == EnqueuePending
    ensures h == r
  {
  }

  lemma GoneAhead(r: Request, h: Request, f: Request)
    requires Drift(r, h) && Drift(h, f) && h.status != EnqueuePending && r.status != Unavailable
    ensures Waiting(r) ==> r.status == EnqueuePending && f != r
  {
  }

  // ── rounds ──────────────────────────────────────────────────────────────────

  /** Other writers, then a pass with more of them landing during each half. */
  datatype Round = Round(before: seq<Op>, now: nat, ticks: Ticks, theirs: Landing, later: Landing)

  ghost predicate OutsideRound(round: Round) {
    Outside(round.before) && AllOutside(round.theirs) && AllOutside(round.later)
  }

  function OneRound(c: Config, l: Ledger, round: Round): Ledger
    requires Sane(c)
  {
    Pass(c, round.now, round.ticks, round.theirs, round.later, RunAll(l, round.before))
  }

  function Rounds(c: Config, l: Ledger, rounds: seq<Round>): Ledger
    requires Sane(c)
    decreases |rounds|
  {
    if rounds == [] then l else Rounds(c, OneRound(c, l, rounds[0]), rounds[1..])
  }

  /** How often request id is sent over the rounds. */
  function SendsTo(c: Config, l: Ledger, rounds: seq<Round>, id: string): nat
    requires Sane(c)
    decreases |rounds|
  {
    if rounds == [] then 0
    else
      CountOf(id, Sends(c, rounds[0].now, Listed(RunAll(l, rounds[0].before).requests, Unavailable)))
      + SendsTo(c, OneRound(c, l, rounds[0]), rounds[1..], id)
  }

  function CountOf(id: string, sends: seq<(string, Work)>): nat {
    if sends == [] then 0 else (if sends[0].0 == id then 1 else 0) + CountOf(id, sends[1..])
  }

  lemma CountUnfolds(c: Config, now: nat, recs: seq<Request>, id: string)
    requires recs != []
    ensures CountOf(id, Sends(c, now, recs))
            == (if recs[0].id == id && Due(c, now, recs[0]) then 1 else 0) + CountOf(id, Sends(c, now, recs[1..]))
  {
    hide Due;
    var first, rest := [(recs[0].id, recs[0].work)], Sends(c, now, recs[1..]);
    assert (first + rest)[1..] == rest && [] + rest == rest;
  }

  lemma {:induction false} CountIsDue(c: Config, now: nat, recs: seq<Request>, id: string)
    requires UniqueIds(recs)
    ensures forall r :: r in recs && r.id == id ==>
              CountOf(id, Sends(c, now, recs)) == if Due(c, now, r) then 1 else 0
    ensures (forall r :: r in recs ==> r.id != id) ==> CountOf(id, Sends(c, now, recs)) == 0
    decreases |recs|
  {
    hide Due, UniqueIds;
    if recs != [] {
      hide Sends, CountOf;
      CountUnfolds(c, now, recs, id);
      UniqueTail(recs);
      CountIsDue(c, now, recs[1..], id);
    }
  }

  /** A pass sends request id once if it is due, with the work it was created with, and not otherwise. */
  lemma SentOnceIfDue(c: Config, now: nat, l: Ledger, id: string)
    requires UniqueIds(l.requests) && Lookup(l.requests, id).Some?
    ensures CountOf(id, Sends(c, now, Listed(l.requests, Unavailable)))
            == if Due(c, now, Lookup(l.requests, id).value) then 1 else 0
  {
    hide Find, Listed, Sends, UniqueIds;
    var recs := Listed(l.requests, Unavailable);
    ListedUnique(l.requests, Unavailable);
    ListingIsExact(l.requests, Unavailable, id);
    CountIsDue(c, now, recs, id);
  }

  lemma DriftSpendsNothing(c: Config, r: Request, f: Request)
    requires Sane(c) && Tame(r) && Drift(r, f)
    ensures AttemptsLeft(c, f) <= AttemptsLeft(c, r) && PassesLeft(c, f) <= PassesLeft(c, r)
    ensures r.attempts <= c.maxAttempts ==> f.attempts <= c.maxAttempts
    ensures f.work == r.work && f.requestedAt == r.requestedAt && f.nextAttemptAt == r.nextAttemptAt
  {
  }

  /** A round, seen from one request: met is where the pass finds it. */
  lemma RoundOnRecord(c: Config, l: Ledger, round: Round, id: string) returns (met: Request)
    requires Sane(c) && OutsideRound(round) && UniqueIds(l.requests) && IsJitter(round.ticks(id).jitter)
    requires Lookup(l.requests, id).Some? && Tame(Lookup(l.requests, id).value)
    ensures Lookup(RunAll(l, round.before).requests, id) == Some(met) && Tame(met)
    ensures Drift(Lookup(l.requests, id).value, met)
    ensures UniqueIds(RunAll(l, round.before).requests)
    ensures var after := OneRound(c, l, round);
            && UniqueIds(after.requests) && Lookup(after.requests, id).Some?
            && Spent(c, round.now, round.ticks(id), met, Lookup(after.requests, id).value)
  {
    hide Drift, Tame, UniqueIds, Spent, Pass, RunAll, Outside, AllOutside, Find;
    var l1 := RunAll(l, round.before);
    OthersDrift(l, round.before, id);
    IdsStayUniqueAll(l, round.before);
    met := Lookup(l1.requests, id).value;
    DriftKeepsTame(Lookup(l.requests, id).value, met);
    PassOnRecord(c, round.now, round.ticks, round.theirs, round.later, l1, id);
  }

  ghost predicate Jittered(rounds: seq<Round>, id: string) {
    forall i :: 0 <= i < |rounds| ==> IsJitter(rounds[i].ticks(id).jitter)
  }

  /**
   Bounded sends. With no re-arm and no crash, however passes and other writers interleave, a request is
   sent at most as often as its budget has attempts left, and its count never passes the budget.
   */
  lemma {:induction false} SendsAreBounded(c: Config, l: Ledger, rounds: seq<Round>, id: string)
    requires Sane(c) && UniqueIds(l.requests) && Jittered(rounds, id)
    requires forall i :: 0 <= i < |rounds| ==> OutsideRound(rounds[i])
    requires Lookup(l.requests, id).Some? && Tame(Lookup(l.requests, id).value)
    ensures var r, last := Lookup(l.requests, id).value, Lookup(Rounds(c, l, rounds).requests, id);
            && SendsTo(c, l, rounds, id) <= AttemptsLeft(c, r) <= c.maxAttempts
            && last.Some?
            && (r.attempts <= c.maxAttempts ==> last.value.attempts <= c.maxAttempts)
    decreases |rounds|
  {
    hide Find, RunAll, OutsideRound, Due, Drift, UniqueIds, Sends, Listed, OneRound, CountOf;
    if rounds != [] {
      var met := RoundOnRecord(c, l, rounds[0], id);
      DriftSpendsNothing(c, Lookup(l.requests, id).value, met);
      SentOnceIfDue(c, rounds[0].now, RunAll(l, rounds[0].before), id);
      SendsAreBounded(c, OneRound(c, l, rounds[0]), rounds[1..], id);
    }
  }

  /** Each pass starts after the longest backoff the previous one can have asked for this request. */
  ghost predicate Spaced(c: Config, rounds: seq<Round>, id: string) {
    forall i :: 0 < i < |rounds| ==>
      rounds[i - 1].now <= rounds[i].now && rounds[i - 1].ticks(id).at + 2 * c.maxBackoff <= rounds[i].now
  }

  /**
   Never stranded, on the operations alone. With no re-arm, maxAttempts + 2 passes, each late enough to find
   its request due, drive every replayable request out of EnqueuePending and Unavailable, whatever
   NodeSentinel answers and whatever else is written before, during and between the passes.
   */
  lemma {:induction false} NeverStranded(c: Config, l: Ledger, rounds: seq<Round>, id: string)
    requires Sane(c) && UniqueIds(l.requests) && Spaced(c, rounds, id) && Jittered(rounds, id)
    requires forall i :: 0 <= i < |rounds| ==> OutsideRound(rounds[i])
    requires Lookup(l.requests, id).Some? && Tame(Lookup(l.requests, id).value)
    requires Replayable(Lookup(l.requests, id).value)
    requires rounds != [] ==> DueBy(c, Lookup(l.requests, id).value, rounds[0].now)
    requires |rounds| >= PassesLeft(c, Lookup(l.requests, id).value)
    ensures var last := Lookup(Rounds(c, l, rounds).requests, id); last.Some? && !Waiting(last.value)
    decreases |rounds|
  {
    hide Find, RunAll, OutsideRound, Due, Drift, UniqueIds, OneRound;
    if rounds != [] {
      var met := RoundOnRecord(c, l, rounds[0], id);
      DriftSpendsNothing(c, Lookup(l.requests, id).value, met);
      NeverStranded(c, OneRound(c, l, rounds[0]), rounds[1..], id);
    }
  }

  /** The same round in a Store that saves: its own writers' activities, and the saves of the pass in its ticks. */
  datatype HostRound = HostRound(before: seq<Activity>, now: nat, ticks: Ticks, theirs: Theirs, later: Theirs)

  /** The operations of such a round, whatever became of their saves. */
  function Landed(round: HostRound): Round {
    Round(OpsOf(round.before), round.now, round.ticks,
          (i: nat) => OpsOf(round.theirs(i)), (i: nat) => OpsOf(round.later(i)))
  }

  function AllLanded(rounds: seq<HostRound>): (r: seq<Round>)
    ensures |r| == |rounds|
  {
    seq(|rounds|, i requires 0 <= i < |rounds| => Landed(rounds[i]))
  }

  ghost predicate OnlyWriter(round: HostRound) {
    OwnStore(round.before) && forall i :: OwnStore(round.theirs(i)) && OwnStore(round.later(i))
  }

  function RoundOn(c: Config, h: Host<Ledger>, round: HostRound): Host<Ledger>
    requires Sane(c)
  {
    PassOn(c, round.now, round.ticks, round.theirs, round.later, ActAll(h, round.before))
  }

  function RoundsOn(c: Config, h: Host<Ledger>, rounds: seq<HostRound>): Host<Ledger>
    requires Sane(c)
    decreases |rounds|
  {
    if rounds == [] then h else RoundsOn(c, RoundOn(c, h, rounds[0]), rounds[1..])
  }

  lemma RoundInMemory(c: Config, h: Host<Ledger>, round: HostRound)
    requires Sane(c) && h.seen == h.file && OnlyWriter(round)
    ensures var last := RoundOn(c, h, round);
            last.mem == OneRound(c, h.mem, Landed(round)) && last.seen == last.file
  {
    hide PassOn, Pass, ActAll, RunAll, OpsOf, OwnStore;
    ActAllInMemory(h, round.before);
    var ops := Landed(round);
    assert Matches(round.theirs, ops.theirs) && Matches(round.later, ops.later);
    PassInMemory(c, round.now, round.ticks, round.theirs, round.later, ops.theirs, ops.later, ActAll(h, round.before));
  }

  lemma {:induction false} RoundsInMemory(c: Config, h: Host<Ledger>, rounds: seq<HostRound>)
    requires Sane(c) && h.seen == h.file && forall i :: 0 <= i < |rounds| ==> OnlyWriter(rounds[i])
    ensures var last := RoundsOn(c, h, rounds);
            last.mem == Rounds(c, h.mem, AllLanded(rounds)) && last.seen == last.file
    decreases |rounds|
  {
    hide RoundOn, OneRound, OnlyWriter, Landed;
    if rounds != [] {
      RoundInMemory(c, h, rounds[0]);
      RoundsInMemory(c, RoundOn(c, h, rounds[0]), rounds[1..]);
      assert AllLanded(rounds)[1..] == AllLanded(rounds[1..]);
    }
  }

  /**
   Never stranded, in a Store that saves to the shared file. With no re-arm, no crash, no reload and no other
   Store writing, maxAttempts + 2 passes, each late enough to find its request due, leave no replayable request
   waiting in memory, whatever NodeSentinel answers, whatever this Store's other writers do before, during and
   between the passes, and whichever saves are refused or stay unsynced.
   */
  lemma NeverStrandedOnHost(c: Config, h: Host<Ledger>, rounds: seq<HostRound>, id: string)
    requires Sane(c) && h.seen == h.file && UniqueIds(h.mem.requests)
    requires forall i :: 0 <= i < |rounds| ==> OnlyWriter(rounds[i]) && OutsideRound(Landed(rounds[i]))
    requires Spaced(c, AllLanded(rounds), id) && Jittered(AllLanded(rounds), id)
    requires Lookup(h.mem.requests, id).Some? && Tame(Lookup(h.mem.requests, id).value)
    requires Replayable(Lookup(h.mem.requests, id).value)
    requires rounds != [] ==> DueBy(c, Lookup(h.mem.requests, id).value, rounds[0].now)
    requires |rounds| >= PassesLeft(c, Lookup(h.mem.requests, id).value)
    ensures var last := RoundsOn(c, h, rounds);
            var r := Lookup(last.mem.requests, id);
            && r.Some? && !Waiting(r.value)
            && last.mem == Rounds(c, h.mem, AllLanded(rounds))
  {
    hide OnlyWriter, OutsideRound, Lookup, Spaced, Jittered, Rounds, RoundsOn, PassesLeft, DueBy, UniqueIds;
    RoundsInMemory(c, h, rounds);
    NeverStranded(c, h.mem, AllLanded(rounds), id);
  }

  // ── what a pass leaves alone, and what a crash leaves ────────────────────────

  /** A request without its replay fields is inert: no pass sends it, and none moves it within its budget. */
  lemma UnreplayableIsInert(c: Config, now: nat, t: Tick, r: Request)
    requires Sane(c) && !Replayable(r)
    ensures !Due(c, now, r)
    ensures OwnOp(c, now, t, r).None? <==> !Exhausted(c, r)
  {
  }

  /** Other activity while the loop runs: this Store's other writers, other Stores, reloads. */
  ghost predicate OutsideActivity(a: Activity) {
    match a
    case Did(op, _) => FromOutside(op)
    case Others(ops, _) => Outside(ops)
    case Resaved(_) => true
    case Reread => true
  }

  ghost predicate AllOutsideActivity(theirs: Theirs) {
    forall i, k :: 0 <= k < |theirs(i)| ==> OutsideActivity(theirs(i)[k])
  }

  /** f is where outside writes alone can have taken request id from some content of h. */
  ghost predicate Descends(h: Host<Ledger>, id: string, f: Request) {
    exists l :: l in Contents(h) && Lookup(l.requests, id).Some? && Drift(Lookup(l.requests, id).value, f)
  }

  /** Every content of h knows the request, with this work and not re-armed. */
  ghost predicate KnownEverywhere(h: Host<Ledger>, id: string, work: Work) {
    forall l :: l in Contents(h) ==>
      var r := Lookup(l.requests, id); r.Some? && Tame(r.value) && r.value.work == work
  }

  ghost predicate AllDescend(start: Host<Ledger>, h: Host<Ledger>, id: string) {
    forall l :: l in Contents(h) ==> Lookup(l.requests, id).Some? && Descends(start, id, Lookup(l.requests, id).value)
  }

  lemma DescendsFurther(start: Host<Ledger>, id: string, r: Request, f: Request)
    requires Descends(start, id, r) && Drift(r, f)
    ensures Descends(start, id, f)
  {
    hide Drift, Lookup;
    var l :| l in Contents(start) && Lookup(l.requests, id).Some? && Drift(Lookup(l.requests, id).value, r);
    DriftTransitive(Lookup(l.requests, id).value, r, f);
  }

  lemma DescendantIsTame(start: Host<Ledger>, id: string, work: Work, f: Request)
    requires KnownEverywhere(start, id, work) && Descends(start, id, f)
    ensures Tame(f) && f.work == work
  {
    hide Lookup, Tame;
    var l :| l in Contents(start) && Lookup(l.requests, id).Some? && Drift(Lookup(l.requests, id).value, f);
    DriftKeepsTame(Lookup(l.requests, id).value, f);
  }

  lemma StartDescends(h: Host<Ledger>, id: string, work: Work)
    requires KnownEverywhere(h, id, work)
    ensures AllDescend(h, h, id)
  {
    hide Lookup, Drift, Tame;
    forall l | l in Contents(h) ensures Descends(h, id, Lookup(l.requests, id).value) {
      Still(Lookup(l.requests, id).value);
    }
  }

  /** An operation that only drifts request id keeps every content a descendant, whatever becomes of the save. */
  lemma PerformDescends(start: Host<Ledger>, h: Host<Ledger>, op: Op, save: SaveOutcome, id: string)
    requires AllDescend(start, h, id)
    requires Lookup(Apply(h.mem, op).ledger.requests, id).Some?
    requires Drift(Lookup(h.mem.requests, id).value, Lookup(Apply(h.mem, op).ledger.requests, id).value)
    ensures AllDescend(start, Perform(h, op, save), id)
  {
    hide Lookup, Apply, Drift, Descends;
    DescendsFurther(start, id, Lookup(h.mem.requests, id).value, Lookup(Apply(h.mem, op).ledger.requests, id).value);
  }

  lemma ActivityDescends(start: Host<Ledger>, h: Host<Ledger>, a: Activity, id: string, work: Work)
    requires KnownEverywhere(start, id, work) && AllDescend(start, h, id) && OutsideActivity(a)
    ensures AllDescend(start, Act(h, a), id)
  {
    hide Lookup, Apply, Drift, Descends, KnownEverywhere, RunAll, Tame, FromOutside;
    assert h.mem in Contents(h) && h.file in Contents(h);
    DescendantIsTame(start, id, work, Lookup(h.mem.requests, id).value);
    DescendantIsTame(start, id, work, Lookup(h.file.requests, id).value);
    match a
    case Did(op, save) =>
      EffectIsLocal(h.mem, op, id);
      IdOf(h.mem, id);
      OutsideDrifts(h.mem, Lookup(h.mem.requests, id).value, op);
      PerformDescends(start, h, op, save, id);
    case Others(ops, synced) =>
      OthersDrift(h.file, ops, id);
      DescendsFurther(start, id, Lookup(h.file.requests, id).value, Lookup(RunAll(h.file, ops).requests, id).value);
    case Resaved(_) =>
    case Reread =>
  }

  lemma IdOf(l: Ledger, id: string)
    requires Lookup(l.requests, id).Some?
    ensures Lookup(l.requests, id).value.id == id
  {
  }

  lemma {:induction false} ActivitiesDescend(start: Host<Ledger>, h: Host<Ledger>, acts: seq<Activity>,
                                             id: string, work: Work)
    requires KnownEverywhere(start, id, work) && AllDescend(start, h, id)
    requires forall k :: 0 <= k < |acts| ==> OutsideActivity(acts[k])
    ensures AllDescend(start, ActAll(h, acts), id)
    decreases |acts|
  {
    hide KnownEverywhere, AllDescend, Act, OutsideActivity;
    if acts != [] {
      ActivityDescends(start, h, acts[0], id, work);
      ActivitiesDescend(start, Act(h, acts[0]), acts[1..], id, work);
    }
  }

  /** Turns for other requests. */
  lemma {:induction false} TurnsDescend(c: Config, now: nat, ticks: Ticks, theirs: Theirs, start: Host<Ledger>,
                                        h: Host<Ledger>, recs: seq<Request>, i: nat, id: string, work: Work)
    requires Sane(c) && i <= |recs| && AllOutsideActivity(theirs)
    requires KnownEverywhere(start, id, work) && AllDescend(start, h, id)
    requires forall k :: i <= k < |recs| ==> recs[k].id != id
    ensures AllDescend(start, TurnsOn(c, now, ticks, theirs, h, recs, i), id)
    decreases |recs| - i
  {
    hide KnownEverywhere, AllDescend, ActAll, OwnOp, Perform;
    if i < |recs| {
      var rec, t := recs[i], ticks(recs[i].id);
      assert forall k :: 0 <= k < |theirs(i)| ==> OutsideActivity(theirs(i)[k]);
      ActivitiesDescend(start, h, theirs(i), id, work);
      var met, own := ActAll(h, theirs(i)), OwnOp(c, now, t, rec);
      if own.Some? { OwnOpElsewhere(start, met, own.value, t.save, id, work); }
      TurnsDescend(c, now, ticks, theirs, start, TurnOn(c, now, t, theirs(i), h, rec), recs, i + 1, id, work);
    }
  }

  lemma OwnOpElsewhere(start: Host<Ledger>, h: Host<Ledger>, op: Op, save: SaveOutcome, id: string, work: Work)
    requires KnownEverywhere(start, id, work) && AllDescend(start, h, id)
    requires (op.Transition? || op.UpdateRetry?) && op.id != id
    ensures AllDescend(start, Perform(h, op, save), id)
  {
    hide Lookup, Apply, Drift, Descends, KnownEverywhere, Tame, Perform;
    assert h.mem in Contents(h);
    DescendantIsTame(start, id, work, Lookup(h.mem.requests, id).value);
    EffectIsLocal(h.mem, op, id);
    IdOf(h.mem, id);
    Still(Lookup(h.mem.requests, id).value);
    PerformDescends(start, h, op, save, id);
  }

  /**
   A crash in the middle of a pass. The process dies while the send for the p-th listed request is in flight,
   after any saves of the pass and of other writers, completed or not, and restarts on any content the crash
   exposes. Nothing of that turn is in any such content: the request is there with the work it was created
   with, where outside writes alone can have taken it from a content the pass started on; so it has moved on,
   or it waits where the next pass lists it. If nothing was unsaved when the pass began, it has moved on or is
   as it was listed, and due again.
   */
  lemma CrashLeavesItDue(c: Config, now: nat, ticks: Ticks, theirs: Theirs, h: Host<Ledger>, p: nat, later: nat,
                         to: Ledger)
    requires Sane(c) && AllOutsideActivity(theirs) && UniqueIds(h.mem.requests) && now <= later
    requires p < |Listed(h.mem.requests, Unavailable)| && Due(c, now, Listed(h.mem.requests, Unavailable)[p])
    requires var r := Listed(h.mem.requests, Unavailable)[p]; KnownEverywhere(h, r.id, r.work)
    requires var recs := Listed(h.mem.requests, Unavailable);
             to in ActAll(TurnsOn(c, now, ticks, theirs, h, recs[..p], 0), theirs(p)).exposed
    ensures var recs := Listed(h.mem.requests, Unavailable);
            var crashed := ActAll(TurnsOn(c, now, ticks, theirs, h, recs[..p], 0), theirs(p));
            var f := Lookup(React(crashed, Crashed(to)).mem.requests, recs[p].id);
            && f.Some? && Tame(f.value) && f.value.work == recs[p].work
            && Descends(h, recs[p].id, f.value)
            && (Waiting(f.value) ==> f.value in Listed(to.requests, f.value.status))
            && (h == Start(h.mem) ==> (f.value == recs[p] && Due(c, later, f.value)) || !Waiting(f.value))
  {
    hide Lookup, Drift, TurnsOn, UniqueIds, ActAll, Tame, Descends, KnownEverywhere;
    var recs := Listed(h.mem.requests, Unavailable);
    var r, id := recs[p], recs[p].id;
    ListedAre(h.mem.requests, Unavailable);
    FoundById(h.mem.requests, r);
    ListedUnique(h.mem.requests, Unavailable);
    OthersComeBefore(recs, p);
    StartDescends(h, id, r.work);
    TurnsDescend(c, now, ticks, theirs, h, h, recs[..p], 0, id, r.work);
    var half := TurnsOn(c, now, ticks, theirs, h, recs[..p], 0);
    assert forall k :: 0 <= k < |theirs(p)| ==> OutsideActivity(theirs(p)[k]);
    ActivitiesDescend(h, half, theirs(p), id, r.work);
    assert to in Contents(ActAll(half, theirs(p)));
    var f := Lookup(to.requests, id).value;
    DescendantIsTame(h, id, r.work, f);
    IsListed(to, id);
    if h == Start(h.mem) {
      FromTheOnlyContent(h, id, f);
      UnavailableDrift(r, f);
    }
  }

  lemma FromTheOnlyContent(h: Host<Ledger>, id: string, f: Request)
    requires h == Start(h.mem) && Descends(h, id, f)
    ensures Lookup(h.mem.requests, id).Some? && Drift(Lookup(h.mem.requests, id).value, f)
  {
    hide Drift, Lookup;
  }

  lemma IsListed(l: Ledger, id: string)
    requires Lookup(l.requests, id).Some?
    ensures var r := Lookup(l.requests, id).value; r in Listed(l.requests, r.status)
  {
    ListedAre(l.requests, Lookup(l.requests, id).value.status);
  }

  lemma FoundById(rs: seq<Request>, r: Request)
    requires UniqueIds(rs) && r in rs
    ensures Lookup(rs, r.id) == Some(r)
  {
    var k :| 0 <= k < |rs| && rs[k] == r;
    FindIs(rs, r.id, k);
  }

  lemma OthersComeBefore(recs: seq<Request>, p: nat)
    requires UniqueIds(recs) && p < |recs|
    ensures forall k :: 0 <= k < p ==> recs[..p][k].id != recs[p].id
  {
  }

  lemma UnavailableDrift(r: Request, f: Request)
    requires Drift(r, f) && r.status == Unavailable
    ensures f == r || !Waiting(f)
  {
  }
}
