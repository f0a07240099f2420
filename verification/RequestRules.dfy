/**
 The rules of a validation request's life, spelled out: which moves are accepted and what each caller's write leaves
 on the record, what a result does from every status, how a request can end without a result, and what the retry
 loop asks for when.
 */
module RequestRules {
  import opened SharedFile
  import opened Wrappers
  import opened ValidationRequests
  import opened ValidationHosts
  import opened RetryBackoff
  import opened EnqueueRetry

  /** The request an id names: the first one under it. */
  predicate IsRequestOf(rs: seq<Request>, id: string, i: nat) {
    i < |rs| && rs[i].id == id && forall k :: 0 <= k < i ==> rs[k].id != id
  }

  predicate NoRequestOf(rs: seq<Request>, id: string) {
    forall k :: 0 <= k < |rs| ==> rs[k].id != id
  }

  /** The ledger with this one request rewritten. */
  predicate OnlyRequest(l: Ledger, after: Ledger, i: nat, r: Request)
    requires i < |l.requests|
  {
    after == Ledger(l.requests[i := r], l.checks)
  }

  // ── transitions ─────────────────────────────────────────────────────────────

  /** The allowed moves, one by one. */
  predicate Allowed(from: Status, to: Status) {
    || (from == EnqueuePending && to == Queued)
    || (from == EnqueuePending && to == Unavailable)
    || (from == EnqueuePending && to == Running)
    || (from == Unavailable && to == EnqueuePending)
    || (from == Unavailable && to == Queued)
    || (from == Unavailable && to == Running)
    || (from == Unavailable && to == EnqueueAbandoned)
    || (from == Queued && to == Running)
    || (from == Queued && to == Failed)
    || (from == Queued && to == Interrupted)
    || (from == Running && to == Succeeded)
    || (from == Running && to == Failed)
    || (from == Running && to == Interrupted)
  }

  /** A move is accepted exactly when it is one of these; refused or for an unknown id it changes nothing. */
  lemma MoveRule(l: Ledger, id: string, to: Status, e: Edit, i: nat)
    ensures var out := Apply(l, Transition(id, to, e));
            && (NoRequestOf(l.requests, id) ==> out == Outcome(l, NotFound))
            && (IsRequestOf(l.requests, id, i) ==>
                  && (out.answer == Accepted <==> Allowed(l.requests[i].status, to))
                  && (out.answer != Accepted ==> out == Outcome(l, InvalidTransition))
                  && (out.answer == Accepted ==>
                        && OnlyRequest(l, out.ledger, i, out.ledger.requests[i])
                        && out.ledger.requests[i].status == to))
  {
    hide Edges, Allowed, Amend;
    if IsRequestOf(l.requests, id, i) {
      FindIs(l.requests, id, i);
      EdgesAre(l.requests[i].status, to);
    }
  }

  lemma EdgesAre(from: Status, to: Status)
    ensures to in Edges(from) <==> Allowed(from, to)
  {
  }

  /**
   The acknowledgement of the first enqueue is accepted exactly from EnqueuePending or Unavailable, and leaves the
   request Queued with that job and time; nothing else on it changes.
   */
  lemma AcknowledgementRule(l: Ledger, id: string, jobId: string, at: nat, i: nat)
    requires IsRequestOf(l.requests, id, i)
    ensures var r := l.requests[i];
            var out := Apply(l, Transition(id, Queued, Acknowledge(jobId, at)));
            if r.status == EnqueuePending || r.status == Unavailable then
              out.answer == Accepted &&
              OnlyRequest(l, out.ledger, i,
                Request(id, r.work, Queued, jobId, r.failureReason, r.attempts, r.nextAttemptAt,
                        r.requestedAt, at, r.completedAt))
            else out == Outcome(l, InvalidTransition)
  {
    FindIs(l.requests, id, i);
  }

  /**
   The refusal of the first enqueue is accepted exactly from EnqueuePending, and leaves the request Unavailable with
   that reason and one attempt.
   */
  lemma RefusalRule(l: Ledger, id: string, reason: string, i: nat)
    requires IsRequestOf(l.requests, id, i)
    ensures var r := l.requests[i];
            var out := Apply(l, Transition(id, Unavailable, FirstRefusal(reason)));
            if r.status == EnqueuePending then
              out.answer == Accepted &&
              OnlyRequest(l, out.ledger, i,
                Request(id, r.work, Unavailable, r.jobId, reason, 1, r.nextAttemptAt,
                        r.requestedAt, r.queuedAt, r.completedAt))
            else out == Outcome(l, InvalidTransition)
  {
    FindIs(l.requests, id, i);
  }

  /** The recovery of a stranded request is accepted exactly from EnqueuePending; its attempts stay as they are. */
  lemma RecoveryRule(l: Ledger, id: string, reason: string, i: nat)
    requires IsRequestOf(l.requests, id, i)
    ensures var r := l.requests[i];
            var out := Apply(l, Transition(id, Unavailable, Recover(reason)));
            if r.status == EnqueuePending then
              out.answer == Accepted &&
              OnlyRequest(l, out.ledger, i,
                Request(id, r.work, Unavailable, r.jobId, reason, r.attempts, r.nextAttemptAt,
                        r.requestedAt, r.queuedAt, r.completedAt))
            else out == Outcome(l, InvalidTransition)
  {
    FindIs(l.requests, id, i);
  }

  /**
   A retry that NodeSentinel took is accepted from EnqueuePending or Unavailable: Queued with its job and time, its
   attempt counted, and no reason or next attempt left over.
   */
  lemma RetryAcceptedRule(l: Ledger, id: string, attempt: nat, jobId: string, at: nat, i: nat)
    requires IsRequestOf(l.requests, id, i)
    ensures var r := l.requests[i];
            var out := Apply(l, Transition(id, Queued, RetryAccepted(attempt, jobId, at)));
            if r.status == EnqueuePending || r.status == Unavailable then
              out.answer == Accepted &&
              OnlyRequest(l, out.ledger, i,
                Request(id, r.work, Queued, jobId, "", attempt, 0, r.requestedAt, at, r.completedAt))
            else out == Outcome(l, InvalidTransition)
  {
    FindIs(l.requests, id, i);
  }

  /** A retry that failed is recorded exactly on an Unavailable request, which stays Unavailable. */
  lemma RetryRefusedRule(l: Ledger, id: string, attempt: nat, reason: string, nextAt: nat, i: nat)
    ensures var out := Apply(l, UpdateRetry(id, RetryRefused(attempt, reason, nextAt)));
            && (NoRequestOf(l.requests, id) ==> out == Outcome(l, NotFound))
            && (IsRequestOf(l.requests, id, i) ==>
                  var r := l.requests[i];
                  if r.status == Unavailable then
                    out.answer == Accepted &&
                    OnlyRequest(l, out.ledger, i,
                      Request(id, r.work, Unavailable, r.jobId, reason, attempt, nextAt,
                              r.requestedAt, r.queuedAt, r.completedAt))
                  else out == Outcome(l, InvalidTransition))
  {
    if IsRequestOf(l.requests, id, i) { FindIs(l.requests, id, i); }
  }

  /** A request is given up exactly when Unavailable, with the reason and the time it ended. */
  lemma GiveUpRule(l: Ledger, id: string, reason: string, at: nat, i: nat)
    requires IsRequestOf(l.requests, id, i)
    ensures var r := l.requests[i];
            var out := Apply(l, Transition(id, EnqueueAbandoned, GiveUp(reason, at)));
            if r.status == Unavailable then
              out.answer == Accepted &&
              OnlyRequest(l, out.ledger, i,
                Request(id, r.work, EnqueueAbandoned, r.jobId, reason, r.attempts, r.nextAttemptAt,
                        r.requestedAt, r.queuedAt, at))
            else out == Outcome(l, InvalidTransition)
  {
    FindIs(l.requests, id, i);
  }

  // ── creation and results ────────────────────────────────────────────────────

  /** A request is created exactly under a new, non-empty id, pending and dated unless it says otherwise. */
  lemma CreationRule(l: Ledger, r: Request, now: nat)
    ensures var out := Apply(l, Create(r, now));
            && (out.answer == EmptyId <==> r.id == "")
            && (out.answer == AlreadyExists <==> r.id != "" && !NoRequestOf(l.requests, r.id))
            && (out.answer == Accepted <==> r.id != "" && NoRequestOf(l.requests, r.id))
            && (out.answer != Accepted ==> out.ledger == l)
            && (out.answer == Accepted ==>
                  out.ledger == Ledger(l.requests + [
                    Request(r.id, r.work, if r.status == Unset then EnqueuePending else r.status, r.jobId,
                            r.failureReason, r.attempts, r.nextAttemptAt,
                            if r.requestedAt == 0 then now else r.requestedAt, r.queuedAt, r.completedAt)], l.checks))
  {
  }

  /** What a result makes of the request it is for, status by status. */
  function AfterResult(r: Request, jobId: string, terminal: bool, succeeded: bool, reason: string, now: nat): Request {
    match r.status
    case EnqueuePending => ResultOnWaiting(r, jobId, terminal, succeeded, reason, now)
    case Unavailable => ResultOnWaiting(r, jobId, terminal, succeeded, reason, now)
    case Queued => ResultOnWaiting(r, jobId, terminal, succeeded, reason, now)
    case Running => if terminal then Closed(r, r.jobId, succeeded, reason, now) else r
    case _ => r
  }

  /** A request that has not been seen running takes the job's id, if the result names one, and runs. */
  function ResultOnWaiting(r: Request, jobId: string, terminal: bool, succeeded: bool, reason: string, now: nat)
    : Request
  {
    var job := if jobId == "" then r.jobId else jobId;
    if terminal then Closed(r, job, succeeded, reason, now)
    else Request(r.id, r.work, Running, job, r.failureReason, r.attempts, r.nextAttemptAt,
                 r.requestedAt, r.queuedAt, r.completedAt)
  }

  function Closed(r: Request, jobId: string, succeeded: bool, reason: string, now: nat): Request {
    Request(r.id, r.work, if succeeded then Succeeded else Failed, jobId,
            if succeeded then r.failureReason else reason, r.attempts, r.nextAttemptAt,
            r.requestedAt, r.queuedAt, now)
  }

  predicate NoCheckOf(cs: seq<Check>, id: string) {
    forall k :: 0 <= k < |cs| ==> cs[k].checkId != id
  }

  lemma ResultOnRequest(r: Request, jobId: string, terminal: bool, succeeded: bool, reason: string, now: nat)
    ensures Correlated(r, jobId, terminal, succeeded, reason, now)
            == AfterResult(r, jobId, terminal, succeeded, reason, now)
  {
  }

  /**
   A result is stored exactly under a new, non-empty check id, and moves the request it names, if there is one, as
   its status allows; no other request moves.
   */
  lemma ResultRule(l: Ledger, c: Check, id: string, jobId: string, terminal: bool, succeeded: bool, reason: string,
                   now: nat, i: nat)
    ensures var out := Apply(l, Report(c, id, jobId, terminal, succeeded, reason, now));
            && (out.answer == EmptyId <==> c.checkId == "")
            && (out.answer == Accepted <==> c.checkId != "" && NoCheckOf(l.checks, c.checkId))
            && (out.answer != Accepted ==> out.ledger == l)
            && (out.answer == Accepted ==>
                  && out.ledger.checks == l.checks + [
                       Check(c.checkId, c.facts, if c.checkedAt == 0 then now else c.checkedAt)]
                  && (id == "" || NoRequestOf(l.requests, id) ==> out.ledger.requests == l.requests)
                  && (id != "" && IsRequestOf(l.requests, id, i) ==>
                        out.ledger.requests == l.requests[i :=
                          AfterResult(l.requests[i], jobId, terminal, succeeded, reason, now)]))
  {
    hide Correlated, AfterResult;
    if IsRequestOf(l.requests, id, i) {
      FindIs(l.requests, id, i);
      ResultOnRequest(l.requests[i], jobId, terminal, succeeded, reason, now);
    }
  }

  /** The same check id again: a duplicate if it reports the same facts as the first under it, a conflict if not. */
  lemma RepeatedResultRule(l: Ledger, c: Check, id: string, jobId: string, terminal: bool, succeeded: bool,
                           reason: string, now: nat, k: nat)
    requires c.checkId != "" && k < |l.checks| && l.checks[k].checkId == c.checkId
    requires forall j :: 0 <= j < k ==> l.checks[j].checkId != c.checkId
    ensures Apply(l, Report(c, id, jobId, terminal, succeeded, reason, now))
            == Outcome(l, if l.checks[k].facts == c.facts then Duplicate else Conflict)
  {
    hide Find, Correlated;
    var f := FindCheck(l.checks, c.checkId);
    assert f == Some(k);
  }

  /**
   In the shared file: a refused operation touches nothing and is answered with its refusal; an accepted one is
   written, and answered as accepted exactly when the write was synced.
   */
  lemma StoreRule(h: Host<Ledger>, op: Op, save: SaveOutcome)
    ensures var out := Apply(h.mem, op);
            var written := Written(h, out.ledger, Writing(None, save));
            && (out.answer != Accepted ==>
                  Perform(h, op, save) == h && ValidationRequests.Reply(h, op, save) == out.answer)
            && (out.answer == Accepted ==>
                  && Perform(h, op, save) == written.host
                  && ValidationRequests.Reply(h, op, save) == if written.ok then Accepted else SaveFailed)
  {
    hide Apply;
  }

  // ── ends without a result ───────────────────────────────────────────────────

  /** What one operation may do to the status of a request that is there. */
  predicate StatusMoves(op: Op, id: string, from: Status, to: Status) {
    || to == from
    || (op.Transition? && op.id == id && op.to == to && Allowed(from, to))
    || (op.Report? && op.requestId == id && op.succeeded && op.terminal && to == Succeeded && Live(from))
    || (op.Report? && op.requestId == id && !op.succeeded && op.terminal && to == Failed && Live(from))
    || (op.Report? && op.requestId == id && !op.terminal && to == Running && Live(from))
  }

  lemma OperationMoves(l: Ledger, op: Op, id: string)
    requires Lookup(l.requests, id).Some?
    ensures var r := Lookup(Apply(l, op).ledger.requests, id);
            r.Some? && StatusMoves(op, id, Lookup(l.requests, id).value.status, r.value.status)
  {
    hide Correlated, FindCheck, Find, Apply;
    EffectIsLocal(l, op, id);
    if op.Report? {
      ResultOnRequest(Lookup(l.requests, id).value, op.jobId, op.terminal, op.succeeded, op.reason, op.now);
    }
  }

  /**
   Over any operations, a request is abandoned only by a transition that found it Unavailable, and interrupted only
   by one that found it Queued or Running.
   */
  lemma {:induction false} EndsWithoutResult(l: Ledger, ops: seq<Op>, id: string, end: Status) returns (n: nat)
    requires end == EnqueueAbandoned || end == Interrupted
    requires Lookup(l.requests, id).Some? && !StatusIs(l, id, end) && StatusIs(RunAll(l, ops), id, end)
    ensures n < |ops| && ops[n].Transition? && ops[n].id == id && ops[n].to == end
    ensures end == EnqueueAbandoned ==> StatusIs(RunAll(l, ops[..n]), id, Unavailable)
    ensures end == Interrupted ==>
              StatusIs(RunAll(l, ops[..n]), id, Queued) || StatusIs(RunAll(l, ops[..n]), id, Running)
    decreases |ops|
  {
    hide Apply, Lookup;
    if ops == [] {
      assert false;
    } else {
      OperationMoves(l, ops[0], id);
      var next := Apply(l, ops[0]).ledger;
      if StatusIs(next, id, end) {
        n := 0;
        assert ops[..0] == [];
      } else {
        var rest := EndsWithoutResult(next, ops[1..], id, end);
        n := rest + 1;
        assert ops[..n][0] == ops[0] && ops[..n][1..] == ops[1..][..rest];
      }
    }
  }

  // ── when the retry loop acts, and on what ───────────────────────────────────

  /** The record still says everything a send needs. */
  predicate CanBeSent(r: Request) {
    r.work.imageRepository != "" && r.work.toolName != ""
  }

  /**
   What a pass asks for a listed request. Unavailable with its attempts spent, it is given up, sendable or not and
   however far its next attempt. Unavailable otherwise, it is sent again exactly if it can be and its next attempt
   is not in the future; the outcome counts one attempt more. Pending, it is made Unavailable exactly if it can be
   sent and is at least as old as the threshold. Nothing is asked for any other request.
   */
  lemma PassRule(c: Config, now: nat, t: Tick, r: Request)
    requires Sane(c)
    ensures var op := OwnOp(c, now, t, r);
            var sent := r.status == Unavailable && r.attempts < c.maxAttempts && CanBeSent(r) && r.nextAttemptAt <= now;
            && (op.Some? && op.value.Transition? && op.value.to == EnqueueAbandoned <==>
                  r.status == Unavailable && r.attempts >= c.maxAttempts)
            && (r.status == Unavailable && r.attempts >= c.maxAttempts ==>
                  op == Some(Transition(r.id, EnqueueAbandoned, GiveUp(op.value.edit.reason, t.at)))
                  && (r.failureReason == "" ==> op.value.edit.reason == "enqueue abandoned")
                  && (r.failureReason != "" ==>
                        op.value.edit.reason == "enqueue abandoned; last error: " + r.failureReason))
            && (Due(c, now, r) <==> sent)
            && (sent && t.reply.Taken? ==>
                  op == Some(Transition(r.id, Queued, RetryAccepted(r.attempts + 1, t.reply.jobId, t.at))))
            && (sent && t.reply.Lost? ==>
                  op.Some? && op.value.UpdateRetry? && op.value.id == r.id && op.value.edit.RetryRefused?
                  && op.value.edit.attempt == r.attempts + 1 && op.value.edit.reason == t.reply.reason)
            && (op.Some? && op.value.Transition? && op.value.to == Unavailable <==>
                  r.status == EnqueuePending && CanBeSent(r) && now - r.requestedAt >= c.pendingStaleAfter)
            && (r.status != Unavailable && r.status != EnqueuePending ==> op == None)
            && (r.status == Unavailable && r.attempts < c.maxAttempts && !sent ==> op == None)
  {
    assert "enqueue abandoned" + "; last error: " == "enqueue abandoned; last error: ";
    assert ABANDONED + "; last error: " + r.failureReason == "enqueue abandoned; last error: " + r.failureReason;
  }

  /** A request whose first send may still be in flight is younger than the threshold, and left alone. */
  lemma InFlightIsLeftAlone(c: Config, now: nat, t: Tick, r: Request)
    requires Sane(c) && r.status == EnqueuePending && now - r.requestedAt <= c.enqueueTimeout
    ensures OwnOp(c, now, t, r) == None
  {
  }

  /**
   After a refused retry the request is not sent again before the delay has passed: the base doubled once for every
   attempt after the first, under the cap, less at most the jitter's share of it.
   */
  lemma RetriesWaitForTheirDelay(c: Config, t: Tick, r: Request, next: Tick, now: nat, later: Request)
    requires Sane(c) && IsJitter(t.jitter) && t.reply.Lost?
    requires Due(c, now, r) && !Exhausted(c, later)
    requires var op := OwnOp(c, now, t, r); op.Some? && later == Amend(op.value.edit, r)
    ensures var delay := Min(c.baseBackoff * Pow2(r.attempts), c.maxBackoff);
            && later.nextAttemptAt as real >= t.at as real + delay as real - (delay + 1) as real * c.jitterFrac
            && later.nextAttemptAt <= t.at + 2 * (delay + 1)
            && forall at: nat :: at < later.nextAttemptAt ==> OwnOp(c, at, next, later) == None
  {
    hide NextAt, Pow2;
    NextAttemptAfterItsDelay(c, t, r.attempts + 1);
  }

  lemma NextAttemptAfterItsDelay(c: Config, t: Tick, attempt: nat)
    requires Sane(c) && IsJitter(t.jitter) && attempt >= 1
    ensures var delay := Min(c.baseBackoff * Pow2(attempt - 1), c.maxBackoff);
            && NextAt(c, t, attempt) as real >= t.at as real + delay as real - (delay + 1) as real * c.jitterFrac
            && NextAt(c, t, attempt) <= t.at + 2 * (delay + 1)
  {
    hide Spread, Doubled, Delay, Share;
    DelayIsDocumentedExactly(c, attempt);
    DelayGrowsToTheCap(c, attempt);
    DoubledIs(c, attempt);
    DoublingGrows(c, 1, attempt);
    JitterIsBounded(Delay(c, attempt), c.jitterFrac, t.jitter);
    ShareShrinks(Min(Doubled(c, attempt), c.maxBackoff), Delay(c, attempt), c.jitterFrac);
  }

  lemma DoubledIs(c: Config, attempt: nat)
    requires attempt >= 1
    ensures Doubled(c, attempt) == c.baseBackoff * Pow2(attempt - 1)
  {
  }

  lemma ShareShrinks(delay: int, d: int, frac: real)
    requires 0 < delay <= d <= delay + 1 && 0.0 < frac <= 1.0
    ensures d as real - Share(d, frac) >= delay as real - (delay + 1) as real * frac
  {
    assert d as real * frac <= (delay + 1) as real * frac;
  }

  /** The jittered delay: the delay and its share at this point of the band, cut off toward zero. */
  lemma JitterIsAShare(d: nat, frac: real, jitter: real)
    requires 0.0 < frac && frac <= 1.0 && IsJitter(jitter)
    ensures Delta(frac, jitter) == (jitter * 2.0 - 1.0) * frac
    ensures Share(d, Delta(frac, jitter)) == d as real * Delta(frac, jitter)
    ensures var share := Share(d, Delta(frac, jitter));
            var change := (Spread(d, frac, jitter) - d) as real;
            && (share >= 0.0 ==> change <= share && share < change + 1.0)
            && (share < 0.0 ==> change - 1.0 < share && share <= change)
  {
    hide Spread, Delta, Portion, Share;
    SpreadIs(d, frac, jitter);
    CutOffTowardZero(d, Delta(frac, jitter));
    DeltaIs(frac, jitter);
    ShareIs(d, Delta(frac, jitter));
  }

  lemma CutOffTowardZero(d: nat, delta: real)
    ensures var share, part := Share(d, delta), Portion(d, delta) as real;
            && (share >= 0.0 ==> part <= share && share < part + 1.0)
            && (share < 0.0 ==> part - 1.0 < share && share <= part)
  {
    hide Share, Trunc;
    TruncIs(Share(d, delta));
  }

  lemma ShareIs(d: nat, delta: real)
    ensures Share(d, delta) == d as real * delta
  {
  }

  lemma DeltaIs(frac: real, jitter: real)
    ensures Delta(frac, jitter) == (jitter * 2.0 - 1.0) * frac
  {
  }

  lemma SpreadIs(d: nat, frac: real, jitter: real)
    requires 0.0 < frac && frac <= 1.0 && IsJitter(jitter)
    ensures Spread(d, frac, jitter) == d + Portion(d, Delta(frac, jitter))
  {
    hide Portion, Delta;
    DeltaBounds(frac, jitter);
    PortionBounds(d, Delta(frac, jitter), frac);
  }

  lemma TruncIs(x: real)
    ensures x >= 0.0 ==> 0.0 <= Trunc(x) as real && Trunc(x) as real <= x && x < Trunc(x) as real + 1.0
    ensures x < 0.0 ==> Trunc(x) as real <= 0.0 && Trunc(x) as real - 1.0 < x && x <= Trunc(x) as real
  {
  }

  /** What a pass sends is exactly the due requests it lists, each under its id and with all of its work. */
  lemma {:induction false} SendsAreDueWork(c: Config, now: nat, recs: seq<Request>, id: string, work: Work)
    ensures (id, work) in Sends(c, now, recs) <==>
            exists k :: 0 <= k < |recs| && Due(c, now, recs[k]) && recs[k].id == id && recs[k].work == work
    decreases |recs|
  {
    hide Due;
    if recs != [] {
      SendsAreDueWork(c, now, recs[1..], id, work);
      assert forall k :: 1 <= k < |recs| ==> recs[k] == recs[1..][k - 1];
    }
  }

  lemma {:induction false} TurnsConcat(c: Config, now: nat, ticks: Ticks, theirs: Theirs, h: Host<Ledger>,
                                       recs: seq<Request>, i: nat, n: nat)
    requires Sane(c) && i <= n <= |recs|
    ensures TurnsOn(c, now, ticks, theirs, TurnsOn(c, now, ticks, theirs, h, recs[..n], i), recs, n)
            == TurnsOn(c, now, ticks, theirs, h, recs, i)
    decreases n - i
  {
    hide TurnOn;
    if i < n {
      TurnsConcat(c, now, ticks, theirs, TurnOn(c, now, ticks(recs[i].id), theirs(i), h, recs[i]), recs, i + 1, n);
    }
  }

  /**
   A cancelled pass stops between two turns: where it leaves the store, going on with the turns that were left makes
   it the whole pass.
   */
  lemma CancelledPassStopsBetweenTurns(c: Config, now: nat, ticks: Ticks, theirs: Theirs, later: Theirs,
                                       h: Host<Ledger>, live: nat)
    requires Sane(c)
    ensures var recs := Listed(h.mem.requests, Unavailable);
            var half := TurnsOn(c, now, ticks, theirs, h, recs, 0);
            var pending := Listed(half.mem.requests, EnqueuePending);
            var cut := CutPassOn(c, now, ticks, theirs, later, h, live);
            && (live < |recs| ==> TurnsOn(c, now, ticks, theirs, cut, recs, live) == half)
            && (|recs| <= live < |recs| + |pending| ==>
                  TurnsOn(c, now, ticks, later, cut, pending, live - |recs|)
                  == PassOn(c, now, ticks, theirs, later, h))
            && (live >= |recs| + |pending| ==> cut == PassOn(c, now, ticks, theirs, later, h))
  {
    hide TurnsOn, Listed;
    var recs := Listed(h.mem.requests, Unavailable);
    var half := TurnsOn(c, now, ticks, theirs, h, recs, 0);
    var pending := Listed(half.mem.requests, EnqueuePending);
    if live < |recs| {
      TurnsConcat(c, now, ticks, theirs, h, recs, 0, live);
    } else if live < |recs| + |pending| {
      TurnsConcat(c, now, ticks, later, half, pending, 0, live - |recs|);
    }
  }
}
