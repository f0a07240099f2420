/**
 One pass of the enqueue-retry loop. The pass works from snapshots, and other writers may land any number of
 operations before each of its own: acknowledgements, refusals, results, new requests.
 */
module EnqueueRetry {
  import opened SharedFile
  import opened Wrappers
  import opened ValidationRequests
  import opened ValidationHosts
  import opened RetryBackoff

  datatype Reply = Taken(jobId: string) | Lost(reason: string)

  /** What happens if this pass acts on a request: NodeSentinel's reply, the clock, jitter and the save. */
  datatype Tick = Tick(reply: Reply, at: nat, jitter: real, save: SaveOutcome)

  predicate Replayable(r: Request) {
    r.work.imageRepository != "" && r.work.toolName != ""
  }

  function GiveUpReason(r: Request): string {
    if r.failureReason == "" then ABANDONED else ABANDONED + "; last error: " + r.failureReason
  }

  const ABANDONED := "enqueue abandoned"
  const RECOVERED_REASON := "recovered from stranded EnqueuePending with no enqueue outcome persisted"

  /** The pass sends this request again. */
  predicate Due(c: Config, now: nat, r: Request) {
    && r.status == Unavailable && r.attempts < c.maxAttempts && Replayable(r)
    && (r.nextAttemptAt == 0 || r.nextAttemptAt <= now)
  }

  predicate Exhausted(c: Config, r: Request) {
    r.status == Unavailable && r.attempts >= c.maxAttempts
  }

  predicate Stranded(c: Config, now: nat, r: Request) {
    r.status == EnqueuePending && Replayable(r) && now - r.requestedAt >= c.pendingStaleAfter
  }

  function NextAt(c: Config, t: Tick, attempt: nat): nat
    requires Sane(c) && attempt >= 1
  {
    t.at + Spread(Delay(c, attempt), c.jitterFrac, t.jitter)
  }

  /** What the pass asks of the store for a listed request: give up first, then send, then recover a stranded one. */
  function OwnOp(c: Config, now: nat, t: Tick, r: Request): (op: Option<Op>)
    requires Sane(c)
    ensures op.Some? ==> (op.value.Transition? || op.value.UpdateRetry?) && op.value.id == r.id
  {
    if Exhausted(c, r) then Some(Transition(r.id, EnqueueAbandoned, GiveUp(GiveUpReason(r), t.at)))
    else if Due(c, now, r) then
      Some(match t.reply
           case Taken(job) => Transition(r.id, Queued, RetryAccepted(r.attempts + 1, job, t.at))
           case Lost(reason) => UpdateRetry(r.id, RetryRefused(r.attempts + 1, reason, NextAt(c, t, r.attempts + 1))))
    else if Stranded(c, now, r) then Some(Transition(r.id, Unavailable, Recover(RECOVERED_REASON)))
    else None
  }

  type Ticks = string -> Tick

  function Listed(rs: seq<Request>, status: Status): seq<Request> {
    if rs == [] then [] else (if rs[0].status == status then [rs[0]] else []) + Listed(rs[1..], status)
  }

  /** What else happens to the store and its file while the i-th listed request is being handled. */
  type Theirs = nat -> seq<Activity>

  function ActAll(h: Host<Ledger>, acts: seq<Activity>): Host<Ledger>
    decreases |acts|
  {
    if acts == [] then h else ActAll(Act(h, acts[0]), acts[1..])
  }

  function TurnOn(c: Config, now: nat, t: Tick, theirs: seq<Activity>, h: Host<Ledger>, rec: Request): Host<Ledger>
    requires Sane(c)
  {
    var met, own := ActAll(h, theirs), OwnOp(c, now, t, rec);
    if own.Some? then Perform(met, own.value, t.save) else met
  }

  /** Half a pass: one turn per listed request, from the i-th on. */
  function TurnsOn(c: Config, now: nat, ticks: Ticks, theirs: Theirs, h: Host<Ledger>, recs: seq<Request>, i: nat)
    : Host<Ledger>
    requires Sane(c) && i <= |recs|
    decreases |recs| - i
  {
    if i == |recs| then h
    else TurnsOn(c, now, ticks, theirs, TurnOn(c, now, ticks(recs[i].id), theirs(i), h, recs[i]), recs, i + 1)
  }

  /** RetryDue: the Unavailable requests of the first listing, then the EnqueuePending ones of a second. */
  function PassOn(c: Config, now: nat, ticks: Ticks, theirs: Theirs, later: Theirs, h: Host<Ledger>): Host<Ledger>
    requires Sane(c)
  {
    var half := TurnsOn(c, now, ticks, theirs, h, Listed(h.mem.requests, Unavailable), 0);
    TurnsOn(c, now, ticks, later, half, Listed(half.mem.requests, EnqueuePending), 0)
  }

  /** As many as a context that is found live this many times lets through. */
  function Within<T>(s: seq<T>, live: nat): seq<T> {
    if live < |s| then s[..live] else s
  }

  /** A pass whose context is cancelled after `live` turns; with enough of them it is a whole pass. */
  function CutPassOn(c: Config, now: nat, ticks: Ticks, theirs: Theirs, later: Theirs, h: Host<Ledger>, live: nat)
    : (r: Host<Ledger>)
    requires Sane(c)
  {
    var recs := Listed(h.mem.requests, Unavailable);
    var half := TurnsOn(c, now, ticks, theirs, h, Within(recs, live), 0);
    if live < |recs| then half
    else TurnsOn(c, now, ticks, later, half, Within(Listed(half.mem.requests, EnqueuePending), live - |recs|), 0)
  }

  /** The sends of a pass: the due requests of its first listing, in order, with their work as recorded. */
  function Sends(c: Config, now: nat, recs: seq<Request>): seq<(string, Work)>
  {
    if recs == [] then []
    else (if Due(c, now, recs[0]) then [(recs[0].id, recs[0].work)] else []) + Sends(c, now, recs[1..])
  }

  // ── the loops ───────────────────────────────────────────────────────────────

  /** One operation, through the method of the store that performs it. */
  method ApplyOne(store: RequestStore, op: Op, save: SaveOutcome)
    modifies store
    ensures store.Value() == Perform(old(store.Value()), op, save)
  {
    match op {
      case Create(r, now) => var _ := store.CreateValidationRequestRecord(r, now, save);
      case Transition(id, to, e) => var _ := store.TransitionValidationRequest(id, to, e, save);
      case UpdateRetry(id, e) => var _ := store.UpdateValidationRequestRetryState(id, e, save);
      case Report(c, id, job, terminal, ok, reason, now) =>
        var _ := store.AppendToolCheckRecordCorrelated(c, id, job, terminal, ok, reason, now, save);
    }
  }

  method LandOne(store: RequestStore, a: Activity)
    modifies store
    ensures store.Value() == Act(old(store.Value()), a)
  {
    hide Perform;
    match a {
      case Did(op, save) => ApplyOne(store, op, save);
      case Resaved(save) => var _ := store.Save(save);
      case Others(ops, synced) => store.Overwrite(RunAll(store.file, ops), synced);
      case Reread => store.Reload();
    }
  }

  method LandAll(store: RequestStore, acts: seq<Activity>)
    modifies store
    ensures store.Value() == ActAll(old(store.Value()), acts)
  {
    hide Act;
    var k := 0;
    while k < |acts|
      invariant 0 <= k <= |acts|
      invariant ActAll(store.Value(), acts[k..]) == ActAll(old(store.Value()), acts)
    {
      assert acts[k..][0] == acts[k] && acts[k..][1..] == acts[k + 1..];
      LandOne(store, acts[k]);
      k := k + 1;
    }
  }

  method ListByStatus(store: RequestStore, status: Status) returns (out: seq<Request>)
    ensures out == Listed(store.requests, status)
  {
    out := [];
    var k := 0;
    while k < |store.requests|
      invariant 0 <= k <= |store.requests|
      invariant out + Listed(store.requests[k..], status) == Listed(store.requests, status)
    {
      assert store.requests[k..][0] == store.requests[k] && store.requests[k..][1..] == store.requests[k + 1..];
      if store.requests[k].status == status { out := out + [store.requests[k]]; }
      k := k + 1;
    }
  }

  /** retryOne with onRetrySuccess and onRetryFailure; theirs lands while the send is in flight. */
  method RetryOne(store: RequestStore, c: Config, rec: Request, t: Tick, theirs: seq<Activity>)
    requires Sane(c)
    modifies store
    ensures store.Value() == Perform(ActAll(old(store.Value()), theirs),
              match t.reply
              case Taken(job) => Transition(rec.id, Queued, RetryAccepted(rec.attempts + 1, job, t.at))
              case Lost(reason) =>
                UpdateRetry(rec.id, RetryRefused(rec.attempts + 1, reason, NextAt(c, t, rec.attempts + 1))), t.save)
  {
    hide Perform;
    var attempt := rec.attempts + 1;
    LandAll(store, theirs);
    match t.reply {
      case Taken(job) =>
        ApplyOne(store, Transition(rec.id, Queued, RetryAccepted(attempt, job, t.at)), t.save);
      case Lost(reason) =>
        var d := Backoff(c, attempt, t.jitter);
        var nextAt := t.at + d;
        ApplyOne(store, UpdateRetry(rec.id, RetryRefused(attempt, reason, nextAt)), t.save);
    }
  }

  method Escalate(store: RequestStore, rec: Request, t: Tick)
    modifies store
    ensures store.Value() == Perform(old(store.Value()),
              Transition(rec.id, EnqueueAbandoned, GiveUp(GiveUpReason(rec), t.at)), t.save)
  {
    hide Perform;
    var reason := ABANDONED;
    if rec.failureReason != "" { reason := reason + "; last error: " + rec.failureReason; }
    ApplyOne(store, Transition(rec.id, EnqueueAbandoned, GiveUp(reason, t.at)), t.save);
  }

  /** One listed request of the first loop. */
  method HandleUnavailable(store: RequestStore, c: Config, now: nat, rec: Request, t: Tick, theirs: seq<Activity>)
    returns (sent: bool)
    requires Sane(c) && rec.status == Unavailable
    modifies store
    ensures store.Value() == TurnOn(c, now, t, theirs, old(store.Value()), rec)
    ensures sent <==> Due(c, now, rec)
  {
    hide Perform, ActAll, NextAt;
    sent := false;
    if rec.attempts >= c.maxAttempts {
      LandAll(store, theirs);
      Escalate(store, rec, t);
    } else if rec.work.imageRepository == "" || rec.work.toolName == "" {
      LandAll(store, theirs);
    } else if rec.nextAttemptAt != 0 && rec.nextAttemptAt > now {
      LandAll(store, theirs);
    } else {
      RetryOne(store, c, rec, t, theirs);
      sent := true;
    }
  }

  /** The first loop of RetryDue; the context is found live this many times. */
  method RetryUnavailable(store: RequestStore, c: Config, now: nat, ticks: Ticks, theirs: Theirs, live: nat)
    returns (sends: seq<(string, Work)>, done: Option<nat>)
    requires Sane(c)
    modifies store
    ensures var was := old(store.Value()); var recs := Listed(was.mem.requests, Unavailable);
            && store.Value() == TurnsOn(c, now, ticks, theirs, was, Within(recs, live), 0)
            && sends == Sends(c, now, Within(recs, live))
            && done == if live < |recs| then None else Some(live - |recs|)
  {
    hide Listed, TurnOn, Due, Sends;
    var recs := ListByStatus(store, Unavailable);
    ListedAre(store.requests, Unavailable);
    ghost var todo := Within(recs, live);
    sends := [];
    var i := 0;
    assert todo[0..] == todo && [] + Sends(c, now, todo) == Sends(c, now, todo);
    while i < |recs|
      invariant 0 <= i <= |todo|
      invariant TurnsOn(c, now, ticks, theirs, store.Value(), todo, i)
                == TurnsOn(c, now, ticks, theirs, old(store.Value()), todo, 0)
      invariant sends + Sends(c, now, todo[i..]) == Sends(c, now, todo)
    {
      if i == live {
        NoSends(c, now);
        assert todo[i..] == [] && sends + [] == sends;
        return sends, None;
      }
      assert recs[i] in recs && todo[i] == recs[i];
      SendsStep(c, now, todo, i, sends);
      var sent := HandleUnavailable(store, c, now, recs[i], ticks(recs[i].id), theirs(i));
      if sent { sends := sends + [(recs[i].id, recs[i].work)]; }
      i := i + 1;
    }
    NoSends(c, now);
    assert todo[i..] == [] && sends + [] == sends;
    done := Some(live - |recs|);
  }

  lemma SendsStep(c: Config, now: nat, recs: seq<Request>, i: nat, sends: seq<(string, Work)>)
    requires i < |recs|
    ensures sends + Sends(c, now, recs[i..])
            == (if Due(c, now, recs[i]) then sends + [(recs[i].id, recs[i].work)] else sends)
               + Sends(c, now, recs[i + 1..])
  {
    hide Due;
    assert recs[i..][0] == recs[i] && recs[i..][1..] == recs[i + 1..];
  }

  lemma NoSends(c: Config, now: nat)
    ensures Sends(c, now, []) == []
  {
  }

  lemma {:induction false} ListedAre(rs: seq<Request>, status: Status)
    ensures forall r :: r in Listed(rs, status) <==> r in rs && r.status == status
    decreases |rs|
  {
    if rs != [] {
      ListedAre(rs[1..], status);
      assert rs == [rs[0]] + rs[1..];
    }
  }

  /** One listed request of the second loop. */
  method HandlePending(store: RequestStore, c: Config, now: nat, rec: Request, t: Tick, theirs: seq<Activity>)
    requires Sane(c) && rec.status == EnqueuePending
    modifies store
    ensures store.Value() == TurnOn(c, now, t, theirs, old(store.Value()), rec)
  {
    hide Perform, ActAll, NextAt;
    LandAll(store, theirs);
    if rec.work.imageRepository == "" || rec.work.toolName == "" {
    } else if now - rec.requestedAt < c.pendingStaleAfter {
    } else {
      ApplyOne(store, Transition(rec.id, Unavailable, Recover(RECOVERED_REASON)), t.save);
    }
  }

  /** recoverStrandedPending. */
  method RecoverStrandedPending(store: RequestStore, c: Config, now: nat, ticks: Ticks, theirs: Theirs, live: nat)
    returns (cancelled: bool)
    requires Sane(c)
    modifies store
    ensures var was := old(store.Value()); var recs := Listed(was.mem.requests, EnqueuePending);
            && store.Value() == TurnsOn(c, now, ticks, theirs, was, Within(recs, live), 0)
            && cancelled == (live < |recs|)
  {
    hide Listed, TurnOn;
    var recs := ListByStatus(store, EnqueuePending);
    ListedAre(store.requests, EnqueuePending);
    ghost var todo := Within(recs, live);
    var i := 0;
    while i < |recs|
      invariant 0 <= i <= |todo|
      invariant TurnsOn(c, now, ticks, theirs, store.Value(), todo, i)
                == TurnsOn(c, now, ticks, theirs, old(store.Value()), todo, 0)
    {
      if i == live {
        return true;
      }
      assert recs[i] in recs && todo[i] == recs[i];
      HandlePending(store, c, now, recs[i], ticks(recs[i].id), theirs(i));
      i := i + 1;
    }
    cancelled := false;
  }

  method RetryDue(store: RequestStore, c: Config, now: nat, ticks: Ticks, theirs: Theirs, later: Theirs, live: nat)
    returns (sends: seq<(string, Work)>, cancelled: bool)
    requires Sane(c)
    modifies store
    ensures store.Value() == CutPassOn(c, now, ticks, theirs, later, old(store.Value()), live)
    ensures !cancelled ==> store.Value() == PassOn(c, now, ticks, theirs, later, old(store.Value()))
    ensures sends == Sends(c, now, Within(Listed(old(store.Value()).mem.requests, Unavailable), live))
  {
    hide TurnsOn, Listed, Sends;
    var done;
    sends, done := RetryUnavailable(store, c, now, ticks, theirs, live);
    if done.None? {
      return sends, true;
    }
    cancelled := RecoverStrandedPending(store, c, now, ticks, later, done.value);
  }

  // ── a pass in memory ────────────────────────────────────────────────────────

  /** The operations that land while the i-th listed request is being handled. */
  type Landing = nat -> seq<Op>

  function OneTurn(c: Config, now: nat, t: Tick, theirs: seq<Op>, l: Ledger, rec: Request): Ledger
    requires Sane(c)
  {
    var met, own := RunAll(l, theirs), OwnOp(c, now, t, rec);
    if own.Some? then Apply(met, own.value).ledger else met
  }

  function Turns(c: Config, now: nat, ticks: Ticks, theirs: Landing, l: Ledger, recs: seq<Request>, i: nat): Ledger
    requires Sane(c) && i <= |recs|
    decreases |recs| - i
  {
    if i == |recs| then l
    else Turns(c, now, ticks, theirs, OneTurn(c, now, ticks(recs[i].id), theirs(i), l, recs[i]), recs, i + 1)
  }

  function Pass(c: Config, now: nat, ticks: Ticks, theirs: Landing, later: Landing, l: Ledger): Ledger
    requires Sane(c)
  {
    var half := Turns(c, now, ticks, theirs, l, Listed(l.requests, Unavailable), 0);
    Turns(c, now, ticks, later, half, Listed(half.requests, EnqueuePending), 0)
  }

  predicate OwnStore(acts: seq<Activity>) {
    forall i :: 0 <= i < |acts| ==> acts[i].Did? || acts[i].Resaved?
  }

  /** The operations of this Store among the activities. */
  function OpsOf(acts: seq<Activity>): seq<Op> {
    if acts == [] then [] else (if acts[0].Did? then [acts[0].op] else []) + OpsOf(acts[1..])
  }

  /** As long as no other Store writes, memory follows the operations, whatever becomes of the saves. */
  lemma PerformInMemory(h: Host<Ledger>, op: Op, save: SaveOutcome)
    requires h.seen == h.file
    ensures var p := Perform(h, op, save); p.mem == Apply(h.mem, op).ledger && p.seen == p.file
  {
    hide Find, FindCheck, Edges;
  }

  lemma {:induction false} ActAllInMemory(h: Host<Ledger>, acts: seq<Activity>)
    requires h.seen == h.file && OwnStore(acts)
    ensures ActAll(h, acts).mem == RunAll(h.mem, OpsOf(acts)) && ActAll(h, acts).seen == ActAll(h, acts).file
    decreases |acts|
  {
    hide Perform, Apply;
    if acts != [] {
      if acts[0].Did? {
        PerformInMemory(h, acts[0].op, acts[0].save);
        assert OpsOf(acts)[1..] == OpsOf(acts[1..]);
      } else {
        assert [] + OpsOf(acts[1..]) == OpsOf(acts[1..]);
      }
      ActAllInMemory(Act(h, acts[0]), acts[1..]);
    }
  }

  ghost predicate Matches(theirs: Theirs, landing: Landing) {
    forall i :: OwnStore(theirs(i)) && landing(i) == OpsOf(theirs(i))
  }

  lemma {:induction false} TurnsInMemory(c: Config, now: nat, ticks: Ticks, theirs: Theirs, landing: Landing,
                                         h: Host<Ledger>, recs: seq<Request>, i: nat)
    requires Sane(c) && i <= |recs| && h.seen == h.file && Matches(theirs, landing)
    ensures var last := TurnsOn(c, now, ticks, theirs, h, recs, i);
            last.mem == Turns(c, now, ticks, landing, h.mem, recs, i) && last.seen == last.file
    decreases |recs| - i
  {
    hide Perform, Apply, OwnOp, ActAll, RunAll, OpsOf;
    if i < |recs| {
      var rec, t := recs[i], ticks(recs[i].id);
      assert landing(i) == OpsOf(theirs(i));
      ActAllInMemory(h, theirs(i));
      var own := OwnOp(c, now, t, rec);
      if own.Some? { PerformInMemory(ActAll(h, theirs(i)), own.value, t.save); }
      TurnsInMemory(c, now, ticks, theirs, landing, TurnOn(c, now, t, theirs(i), h, rec), recs, i + 1);
    }
  }

  /**
   A pass of the only Store that writes: memory afterwards depends on the operations that landed and not on
   what became of any save, and the file is again as this Store last saw it.
   */
  lemma PassInMemory(c: Config, now: nat, ticks: Ticks, theirs: Theirs, later: Theirs,
                     landing: Landing, laterLanding: Landing, h: Host<Ledger>)
    requires Sane(c) && h.seen == h.file && Matches(theirs, landing) && Matches(later, laterLanding)
    ensures var last := PassOn(c, now, ticks, theirs, later, h);
            last.mem == Pass(c, now, ticks, landing, laterLanding, h.mem) && last.seen == last.file
  {
    hide TurnsOn, Turns, Listed, Matches;
    var recs := Listed(h.mem.requests, Unavailable);
    TurnsInMemory(c, now, ticks, theirs, landing, h, recs, 0);
    var half := TurnsOn(c, now, ticks, theirs, h, recs, 0);
    TurnsInMemory(c, now, ticks, later, laterLanding, half, Listed(half.mem.requests, EnqueuePending), 0);
  }
}
