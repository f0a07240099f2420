/**
 The lifecycle of one validation request. Build acknowledgements, early results, crash recovery, retries
 and escalation all write the same record; the table of allowed edges decides who wins.

 Times are naturals; 0 is Go's zero time. A check record is its id and the facts its fingerprint hashes.
 */
module ValidationRequests {
  import opened SharedFile
  import opened Wrappers

  datatype Status =
    | Unset | EnqueuePending | Unavailable | Queued | Running
    | Succeeded | Failed | Interrupted | EnqueueAbandoned

  /** validValidationTransitions. */
  function Edges(from: Status): seq<Status> {
    match from
    case EnqueuePending => [Queued, Unavailable, Running]
    case Unavailable => [EnqueuePending, Queued, Running, EnqueueAbandoned]
    case Queued => [Running, Failed, Interrupted]
    case Running => [Succeeded, Failed, Interrupted]
    case _ => []
  }

  /** What an enqueue sends, kept on the record so that a retry can send it again. */
  datatype Work = Work(
    artifactKind: string,
    imageRepository: string,
    imageDigest: string,
    toolName: string,
    version: string,
    casHash: string,
    requestedActions: seq<string>)

  datatype Request = Request(
    id: string,
    work: Work,
    status: Status,
    jobId: string,
    failureReason: string,
    attempts: nat,
    nextAttemptAt: nat,
    requestedAt: nat,
    queuedAt: nat,
    completedAt: nat)

  datatype Check = Check(checkId: string, facts: string, checkedAt: nat)

  /** The two index sections the lifecycle touches. */
  datatype Ledger = Ledger(requests: seq<Request>, checks: seq<Check>)

  datatype Answer =
    | Accepted | EmptyId | AlreadyExists | NotFound | InvalidTransition | Duplicate | Conflict | SaveFailed

  // ── the mutate callbacks ────────────────────────────────────────────────────

  datatype Edit =
    | Acknowledge(jobId: string, at: nat)
    | FirstRefusal(reason: string)
    | Recover(reason: string)
    | RetryAccepted(attempt: nat, jobId: string, at: nat)
    | RetryRefused(attempt: nat, reason: string, nextAt: nat)
    | GiveUp(reason: string, at: nat)
    | Promote(jobId: string)
    | Close(succeeded: bool, reason: string, at: nat)
    | NoEdit

  function Amend(e: Edit, r: Request): Request {
    match e
    case Acknowledge(job, at) => r.(jobId := job, queuedAt := at)
    case FirstRefusal(reason) => r.(failureReason := reason, attempts := 1)
    case Recover(reason) => r.(failureReason := reason)
    case RetryAccepted(n, job, at) =>
      r.(attempts := n, jobId := job, queuedAt := at, failureReason := "", nextAttemptAt := 0)
    case RetryRefused(n, reason, nextAt) => r.(attempts := n, failureReason := reason, nextAttemptAt := nextAt)
    case GiveUp(reason, at) => r.(failureReason := reason, completedAt := at)
    case Promote(job) => if job != "" then r.(jobId := job) else r
    case Close(succeeded, reason, at) =>
      if succeeded then r.(completedAt := at) else r.(completedAt := at, failureReason := reason)
    case NoEdit => r
  }

  // ── one record ──────────────────────────────────────────────────────────────

  /** Take the edge if there is one; a refused edge leaves the record as it was. */
  function Moved(r: Request, to: Status, e: Edit): Request {
    if to in Edges(r.status) then Amend(e, r).(status := to) else r
  }

  /** A result: promote to Running, then close if it is terminal; both refusals are swallowed. */
  function Correlated(r: Request, jobId: string, terminal: bool, succeeded: bool, reason: string, at: nat): Request {
    var promoted := Moved(r, Running, Promote(jobId));
    if terminal then Moved(promoted, if succeeded then Succeeded else Failed, Close(succeeded, reason, at))
    else promoted
  }

  // ── the section ─────────────────────────────────────────────────────────────

  function Find(rs: seq<Request>, id: string): (i: Option<nat>)
    ensures i.Some? ==> i.value < |rs| && rs[i.value].id == id
    ensures i.Some? ==> forall k :: 0 <= k < i.value ==> rs[k].id != id
    ensures i.None? ==> forall k :: 0 <= k < |rs| ==> rs[k].id != id
    decreases |rs|
  {
    if rs == [] then None
    else if rs[0].id == id then Some(0)
    else
      match Find(rs[1..], id)
      case None => None
      case Some(i) => Some(i + 1)
  }

  function Lookup(rs: seq<Request>, id: string): Option<Request> {
    match Find(rs, id)
    case None => None
    case Some(i) => Some(rs[i])
  }

  function FindCheck(cs: seq<Check>, id: string): (i: Option<nat>)
    ensures i.Some? ==> i.value < |cs| && cs[i.value].checkId == id
    ensures i.Some? ==> forall k :: 0 <= k < i.value ==> cs[k].checkId != id
    ensures i.None? ==> forall k :: 0 <= k < |cs| ==> cs[k].checkId != id
    decreases |cs|
  {
    if cs == [] then None
    else if cs[0].checkId == id then Some(0)
    else
      match FindCheck(cs[1..], id)
      case None => None
      case Some(i) => Some(i + 1)
  }

  /** Everything that writes the section, as the callers write it. */
  datatype Op =
    | Create(request: Request, now: nat)
    | Transition(id: string, to: Status, edit: Edit)
    | UpdateRetry(id: string, edit: Edit)
    | Report(check: Check, requestId: string, jobId: string, terminal: bool, succeeded: bool, reason: string, now: nat)

  datatype Outcome = Outcome(ledger: Ledger, answer: Answer)

  function Apply(l: Ledger, op: Op): Outcome {
    match op
    case Create(r, now) => CreateIn(l, r, now)
    case Transition(id, to, e) => TransitionIn(l, id, to, e)
    case UpdateRetry(id, e) => UpdateRetryIn(l, id, e)
    case Report(c, id, job, terminal, ok, reason, now) => ReportIn(l, c, id, job, terminal, ok, reason, now)
  }

  function CreateIn(l: Ledger, r: Request, now: nat): Outcome {
    if r.id == "" then Outcome(l, EmptyId)
    else if Find(l.requests, r.id).Some? then Outcome(l, AlreadyExists)
    else Outcome(l.(requests := l.requests + [Fresh(r, now)]), Accepted)
  }

  function Fresh(r: Request, now: nat): Request {
    r.(requestedAt := if r.requestedAt == 0 then now else r.requestedAt,
       status := if r.status == Unset then EnqueuePending else r.status)
  }

  function TransitionIn(l: Ledger, id: string, to: Status, e: Edit): Outcome {
    match Find(l.requests, id)
    case None => Outcome(l, NotFound)
    case Some(i) =>
      if to in Edges(l.requests[i].status)
      then Outcome(l.(requests := l.requests[i := Moved(l.requests[i], to, e)]), Accepted)
      else Outcome(l, InvalidTransition)
  }

  function UpdateRetryIn(l: Ledger, id: string, e: Edit): Outcome {
    match Find(l.requests, id)
    case None => Outcome(l, NotFound)
    case Some(i) =>
      if l.requests[i].status != Unavailable then Outcome(l, InvalidTransition)
      else Outcome(l.(requests := l.requests[i := Amend(e, l.requests[i])]), Accepted)
  }

  function ReportIn(l: Ledger, c: Check, id: string, job: string, terminal: bool, ok: bool,
                    reason: string, now: nat): Outcome
  {
    if c.checkId == "" then Outcome(l, EmptyId)
    else
      match FindCheck(l.checks, c.checkId)
      case Some(k) => Outcome(l, if l.checks[k].facts == c.facts then Duplicate else Conflict)
      case None =>
        var checks := l.checks + [c.(checkedAt := if c.checkedAt == 0 then now else c.checkedAt)];
        Outcome(Ledger(Correlate(l.requests, id, job, terminal, ok, reason, now), checks), Accepted)
  }

  function Correlate(rs: seq<Request>, id: string, job: string, terminal: bool, ok: bool,
                     reason: string, now: nat): seq<Request>
  {
    if id == "" then rs
    else
      match Find(rs, id)
      case None => rs
      case Some(i) => rs[i := Correlated(rs[i], job, terminal, ok, reason, now)]
  }

  // ── the section in the shared file ──────────────────────────────────────────

  /** An accepted operation changes memory and saves; its caller learns of a save that did not complete. */
  function Perform(h: Host<Ledger>, op: Op, save: SaveOutcome): Host<Ledger> {
    var out := Apply(h.mem, op);
    if out.answer == Accepted then Commit(h, out.ledger, save).host else h
  }

  function Reply(h: Host<Ledger>, op: Op, save: SaveOutcome): Answer {
    var out := Apply(h.mem, op);
    if out.answer == Accepted && !Commit(h, out.ledger, save).ok then SaveFailed else out.answer
  }

  /** The section as the Store keeps it, updated in place; the file is what all Stores write. */
  class RequestStore {
    var requests: seq<Request>
    var checks: seq<Check>
    var seen: Ledger
    var file: Ledger
    ghost var exposed: set<Ledger>

    ghost function Value(): Host<Ledger>
      reads this
    {
      Host(Ledger(requests, checks), seen, file, exposed)
    }

    constructor (stored: Ledger)
      ensures Value() == Start(stored)
    {
      requests, checks := stored.requests, stored.checks;
      seen, file, exposed := stored, stored, {stored};
    }

    method Reload()
      modifies this
      ensures Value() == Reloaded(old(Value()))
    {
      requests, checks, seen := file.requests, file.checks, file;
    }

    method Save(save: SaveOutcome) returns (answer: Answer)
      modifies this
      ensures Value() == SharedFile.Save(old(Value()), save).host
      ensures answer == if SharedFile.Save(old(Value()), save).ok then Accepted else SaveFailed
    {
      answer := SaveFailed;
      if save == Refused {
        return;
      }
      if seen != file {
        Reload();
        return;
      }
      file := Ledger(requests, checks);
      seen := file;
      if save == Synced {
        exposed := {file};
        answer := Accepted;
      } else {
        exposed := exposed + {file};
      }
    }

    /** Another Store's write. */
    method Overwrite(to: Ledger, synced: bool)
      modifies this`file, this`exposed
      ensures Value() == Overwritten(old(Value()), to, synced)
    {
      file := to;
      exposed := if synced then {to} else exposed + {to};
    }

    method FindValidationRequestIndex(id: string) returns (i: Option<nat>)
      ensures i == Find(requests, id)
    {
      i := None;
      var k := 0;
      while k < |requests|
        invariant 0 <= k <= |requests|
        invariant forall j :: 0 <= j < k ==> requests[j].id != id
      {
        if requests[k].id == id {
          return Some(k);
        }
        k := k + 1;
      }
    }

    method CreateValidationRequestRecord(r: Request, now: nat, save: SaveOutcome) returns (answer: Answer)
      modifies this
      ensures Value() == Perform(old(Value()), Create(r, now), save)
      ensures answer == Reply(old(Value()), Create(r, now), save)
    {
      if r.id == "" {
        return EmptyId;
      }
      var existing := FindValidationRequestIndex(r.id);
      if existing.Some? {
        return AlreadyExists;
      }
      var stored := r;
      if stored.requestedAt == 0 { stored := stored.(requestedAt := now); }
      if stored.status == Unset { stored := stored.(status := EnqueuePending); }
      requests := requests + [stored];
      answer := Save(save);
    }

    method TransitionValidationRequestLocked(i: nat, to: Status, e: Edit) returns (allowed: bool)
      requires i < |requests|
      modifies this`requests
      ensures requests == old(requests)[i := Moved(old(requests)[i], to, e)]
      ensures allowed <==> to in Edges(old(requests)[i].status)
      ensures !allowed ==> requests == old(requests)
    {
      var edges := Edges(requests[i].status);
      allowed := false;
      var k := 0;
      while k < |edges| && !allowed
        invariant 0 <= k <= |edges|
        invariant allowed <==> to in edges[..k]
      {
        allowed := edges[k] == to;
        k := k + 1;
      }
      assert edges[..|edges|] == edges;
      if allowed {
        requests := requests[i := Amend(e, requests[i]).(status := to)];
      }
    }

    method TransitionValidationRequest(id: string, to: Status, e: Edit, save: SaveOutcome) returns (answer: Answer)
      modifies this
      ensures Value() == Perform(old(Value()), Transition(id, to, e), save)
      ensures answer == Reply(old(Value()), Transition(id, to, e), save)
    {
      hide Moved, Find, Edges, Commit;
      ghost var before := Value();
      var i := FindValidationRequestIndex(id);
      if i.None? {
        return NotFound;
      }
      ghost var r := before.mem.requests[i.value];
      var allowed := TransitionValidationRequestLocked(i.value, to, e);
      if !allowed {
        assert Apply(before.mem, Transition(id, to, e)) == Outcome(before.mem, InvalidTransition);
        return InvalidTransition;
      }
      ghost var after := before.mem.(requests := before.mem.requests[i.value := Moved(r, to, e)]);
      assert Apply(before.mem, Transition(id, to, e)) == Outcome(after, Accepted);
      assert Value() == before.(mem := after);
      CommitIs(before, after, save);
      answer := Save(save);
    }

    method UpdateValidationRequestRetryState(id: string, e: Edit, save: SaveOutcome) returns (answer: Answer)
      modifies this
      ensures Value() == Perform(old(Value()), UpdateRetry(id, e), save)
      ensures answer == Reply(old(Value()), UpdateRetry(id, e), save)
    {
      hide Find, Edges;
      var i := FindValidationRequestIndex(id);
      if i.None? {
        return NotFound;
      }
      var current := requests[i.value].status;
      if current != Unavailable {
        return InvalidTransition;
      }
      requests := requests[i.value := Amend(e, requests[i.value]).(status := current)];
      answer := Save(save);
    }

    method ApplyValidationCorrelationLocked(id: string, jobId: string, terminal: bool, succeeded: bool,
                                            reason: string, now: nat)
      modifies this`requests
      ensures requests == Correlate(old(requests), id, jobId, terminal, succeeded, reason, now)
    {
      if id == "" {
        return;
      }
      var i := FindValidationRequestIndex(id);
      if i.None? {
        return;
      }
      var _ := TransitionValidationRequestLocked(i.value, Running, Promote(jobId));
      if !terminal {
        return;
      }
      var target := Succeeded;
      if !succeeded { target := Failed; }
      var _ := TransitionValidationRequestLocked(i.value, target, Close(succeeded, reason, now));
    }

    method AppendToolCheckRecordCorrelated(c: Check, requestId: string, jobId: string, terminal: bool,
                                           succeeded: bool, reason: string, now: nat, save: SaveOutcome)
      returns (answer: Answer)
      modifies this
      ensures var op := Report(c, requestId, jobId, terminal, succeeded, reason, now);
              Value() == Perform(old(Value()), op, save) && answer == Reply(old(Value()), op, save)
    {
      if c.checkId == "" {
        return EmptyId;
      }
      var k := 0;
      while k < |checks|
        invariant 0 <= k <= |checks|
        invariant forall j :: 0 <= j < k ==> checks[j].checkId != c.checkId
      {
        if checks[k].checkId == c.checkId {
          return if checks[k].facts == c.facts then Duplicate else Conflict;
        }
        k := k + 1;
      }
      var stored := c;
      if stored.checkedAt == 0 { stored := stored.(checkedAt := now); }
      checks := checks + [stored];
      ApplyValidationCorrelationLocked(requestId, jobId, terminal, succeeded, reason, now);
      answer := Save(save);
    }
  }

  lemma CommitIs(h: Host<Ledger>, next: Ledger, save: SaveOutcome)
    ensures Commit(h, next, save) == Save(h.(mem := next), save)
  {
  }

  // ── what one operation does to one record ───────────────────────────────────

  predicate Terminal(s: Status) {
    s == Succeeded || s == Failed || s == Interrupted || s == EnqueueAbandoned
  }

  predicate Live(s: Status) {
    s == EnqueuePending || s == Unavailable || s == Queued || s == Running
  }

  predicate Appended(l: Ledger, c: Check) {
    c.checkId != "" && FindCheck(l.checks, c.checkId).None?
  }

  /** The record an operation leaves where r was. */
  function Advance(l: Ledger, r: Request, op: Op): Request {
    match op
    case Create(_, _) => r
    case Transition(id, to, e) => if id == r.id then Moved(r, to, e) else r
    case UpdateRetry(id, e) => if id == r.id && r.status == Unavailable then Amend(e, r) else r
    case Report(c, id, job, terminal, ok, reason, now) =>
      if Appended(l, c) && id != "" && id == r.id then Correlated(r, job, terminal, ok, reason, now) else r
  }

  lemma FindIs(rs: seq<Request>, id: string, i: nat)
    requires i < |rs| && rs[i].id == id && forall k :: 0 <= k < i ==> rs[k].id != id
    ensures Find(rs, id) == Some(i)
  {
    var f := Find(rs, id);
    assert f.Some? ==> !(i < f.value);
  }

  /** Overwriting the record an id finds changes what that id finds and nothing else. */
  lemma LookupAfterUpdate(rs: seq<Request>, id: string, r: Request, other: string)
    requires Find(rs, id).Some? && r.id == id
    ensures Lookup(rs[Find(rs, id).value := r], other) == if other == id then Some(r) else Lookup(rs, other)
  {
    var i := Find(rs, id).value;
    var now := rs[i := r];
    assert forall k :: 0 <= k < |rs| ==> now[k].id == rs[k].id;
    var a := Find(rs, other);
    if a.Some? { FindIs(now, other, a.value); }
  }

  lemma LookupAfterAppend(rs: seq<Request>, r: Request, id: string)
    ensures Lookup(rs, id).Some? ==> Lookup(rs + [r], id) == Lookup(rs, id)
    ensures Lookup(rs, id).None? ==> Lookup(rs + [r], id) == if r.id == id then Some(r) else None
  {
    var now := rs + [r];
    assert forall k :: 0 <= k < |rs| ==> now[k] == rs[k];
    assert now[|rs|] == r;
    var a := Find(rs, id);
    if a.Some? {
      FindIs(now, id, a.value);
    } else if r.id == id {
      FindIs(now, id, |rs|);
    }
  }

  /** Every operation acts on a record by itself; no other record is touched and none is lost. */
  lemma EffectIsLocal(l: Ledger, op: Op, id: string)
    requires Lookup(l.requests, id).Some?
    ensures Lookup(Apply(l, op).ledger.requests, id) == Some(Advance(l, Lookup(l.requests, id).value, op))
  {
    hide Edges, FindCheck;
    var rs := l.requests;
    match op
    case Create(r, now) => LookupAfterAppend(rs, Fresh(r, now), id);
    case Transition(k, to, e) =>
      if Find(rs, k).Some? { LookupAfterUpdate(rs, k, Moved(rs[Find(rs, k).value], to, e), id); }
    case UpdateRetry(k, e) =>
      if Find(rs, k).Some? { LookupAfterUpdate(rs, k, Amend(e, rs[Find(rs, k).value]), id); }
    case Report(c, k, job, terminal, ok, reason, now) =>
      ResultIsLocal(rs, k, job, terminal, ok, reason, now, id);
  }

  lemma ResultIsLocal(rs: seq<Request>, k: string, job: string, terminal: bool, ok: bool,
                      reason: string, now: nat, id: string)
    ensures Lookup(Correlate(rs, k, job, terminal, ok, reason, now), id)
            == if Lookup(rs, id).Some? && k != "" && k == id
               then Some(Correlated(Lookup(rs, id).value, job, terminal, ok, reason, now)) else Lookup(rs, id)
  {
    hide Edges, Correlated;
    if Find(rs, k).Some? {
      var r := rs[Find(rs, k).value];
      KeepsIdentity(r, job, terminal, ok, reason, now);
      LookupAfterUpdate(rs, k, Correlated(r, job, terminal, ok, reason, now), id);
    }
  }

  lemma KeepsIdentity(r: Request, job: string, terminal: bool, ok: bool, reason: string, now: nat)
    ensures var c := Correlated(r, job, terminal, ok, reason, now); c.id == r.id && c.work == r.work
  {
    hide Edges;
  }

  /** A terminal record is never written again, by any caller and with any callback. */
  lemma TerminalIsFrozen(l: Ledger, op: Op, id: string)
    requires Lookup(l.requests, id).Some? && Terminal(Lookup(l.requests, id).value.status)
    ensures Lookup(Apply(l, op).ledger.requests, id) == Lookup(l.requests, id)
  {
    EffectIsLocal(l, op, id);
  }

  // ── whole runs ──────────────────────────────────────────────────────────────

  function RunAll(l: Ledger, ops: seq<Op>): Ledger
    decreases |ops|
  {
    if ops == [] then l else RunAll(Apply(l, ops[0]).ledger, ops[1..])
  }

  /** The edges the callers ask for; only a result closes a request, and nothing creates a closed one. */
  predicate AsCalled(op: Op) {
    match op
    case Create(r, _) => r.status == Unset || r.status == EnqueuePending
    case Transition(_, to, _) => to !in [Succeeded, Failed]
    case _ => true
  }

  /** The first terminal result that reaches request id while it is not terminal. */
  function FirstVerdict(l: Ledger, ops: seq<Op>, id: string): Option<bool>
    decreases |ops|
  {
    if ops == [] then None
    else if Decides(l, ops[0], id) then Some(ops[0].succeeded)
    else FirstVerdict(Apply(l, ops[0]).ledger, ops[1..], id)
  }

  predicate Decides(l: Ledger, op: Op, id: string) {
    var r := Lookup(l.requests, id);
    && op.Report? && op.terminal && op.requestId == id && Appended(l, op.check)
    && r.Some? && Live(r.value.status)
  }

  predicate StatusIs(l: Ledger, id: string, s: Status) {
    var r := Lookup(l.requests, id);
    r.Some? && r.value.status == s
  }

  lemma {:induction false} FrozenForever(l: Ledger, ops: seq<Op>, id: string)
    requires Lookup(l.requests, id).Some? && Terminal(Lookup(l.requests, id).value.status)
    ensures Lookup(RunAll(l, ops).requests, id) == Lookup(l.requests, id)
    decreases |ops|
  {
    if ops != [] {
      TerminalIsFrozen(l, ops[0], id);
      FrozenForever(Apply(l, ops[0]).ledger, ops[1..], id);
    }
  }

  lemma VerdictTakesEffect(l: Ledger, op: Op, id: string)
    requires id != "" && Decides(l, op, id)
    ensures var r := Lookup(Apply(l, op).ledger.requests, id);
            && r.Some? && r.value.status == (if op.succeeded then Succeeded else Failed)
            && r.value.completedAt == op.now
            && (!op.succeeded ==> r.value.failureReason == op.reason)
  {
    hide Find, FindCheck;
    EffectIsLocal(l, op, id);
  }

  lemma OtherwiseUndecided(l: Ledger, op: Op, id: string)
    requires id != "" && AsCalled(op) && !Decides(l, op, id)
    requires !StatusIs(l, id, Succeeded) && !StatusIs(l, id, Failed)
    ensures !StatusIs(Apply(l, op).ledger, id, Succeeded) && !StatusIs(Apply(l, op).ledger, id, Failed)
  {
    hide Find, FindCheck;
    var r := Lookup(l.requests, id);
    if r.Some? {
      EffectIsLocal(l, op, id);
    } else {
      NeverFound(l, op, id);
    }
  }

  lemma NeverFound(l: Ledger, op: Op, id: string)
    requires Lookup(l.requests, id).None?
    ensures var r := Lookup(Apply(l, op).ledger.requests, id);
            r.None? || (op.Create? && r == Some(Fresh(op.request, op.now)))
  {
    hide Edges, FindCheck;
    var rs := l.requests;
    match op
    case Create(r, now) => LookupAfterAppend(rs, Fresh(r, now), id);
    case Transition(k, to, e) =>
      if Find(rs, k).Some? { LookupAfterUpdate(rs, k, Moved(rs[Find(rs, k).value], to, e), id); }
    case UpdateRetry(k, e) =>
      if Find(rs, k).Some? { LookupAfterUpdate(rs, k, Amend(e, rs[Find(rs, k).value]), id); }
    case Report(c, k, job, terminal, ok, reason, now) =>
      ResultIsLocal(rs, k, job, terminal, ok, reason, now, id);
  }

  /**
   First terminal result wins. In every ordering of creation, acknowledgements, recovery, retries,
   escalation and results, a request ends Succeeded exactly when the first terminal result that reached it
   alive succeeded, and Failed exactly when that result failed.
   */
  lemma {:induction false} FirstVerdictWins(l: Ledger, ops: seq<Op>, id: string)
    requires id != "" && (forall i :: 0 <= i < |ops| ==> AsCalled(ops[i]))
    requires !StatusIs(l, id, Succeeded) && !StatusIs(l, id, Failed)
    ensures StatusIs(RunAll(l, ops), id, Succeeded) <==> FirstVerdict(l, ops, id) == Some(true)
    ensures StatusIs(RunAll(l, ops), id, Failed) <==> FirstVerdict(l, ops, id) == Some(false)
    decreases |ops|
  {
    hide Apply, Decides, AsCalled;
    if ops != [] {
      var next := Apply(l, ops[0]).ledger;
      if Decides(l, ops[0], id) {
        VerdictTakesEffect(l, ops[0], id);
        FrozenForever(next, ops[1..], id);
      } else {
        OtherwiseUndecided(l, ops[0], id);
        FirstVerdictWins(next, ops[1..], id);
      }
    }
  }

  /** How far a request has come. */
  function Progress(s: Status): nat {
    match s
    case Unset => 0
    case EnqueuePending => 1
    case Unavailable => 1
    case Queued => 2
    case Running => 3
    case _ => 4
  }

  lemma AdvanceMovesForward(l: Ledger, r: Request, op: Op)
    ensures Progress(r.status) <= Progress(Advance(l, r, op).status)
    ensures Advance(l, r, op).work == r.work
  {
    hide FindCheck, Find, Correlated;
    CorrelatedMovesForward(r, op);
  }

  lemma CorrelatedMovesForward(r: Request, op: Op)
    ensures op.Report? ==>
              var c := Correlated(r, op.jobId, op.terminal, op.succeeded, op.reason, op.now);
              Progress(r.status) <= Progress(c.status) && c.work == r.work
  {
  }

  /** No operation, late or repeated, moves a request back, and what an enqueue sends never changes. */
  lemma {:induction false} NeverRegresses(l: Ledger, ops: seq<Op>, id: string)
    requires Lookup(l.requests, id).Some?
    ensures var r := Lookup(RunAll(l, ops).requests, id);
            && r.Some?
            && Progress(Lookup(l.requests, id).value.status) <= Progress(r.value.status)
            && r.value.work == Lookup(l.requests, id).value.work
    decreases |ops|
  {
    hide Lookup, Advance, Apply, Progress;
    if ops != [] {
      EffectIsLocal(l, ops[0], id);
      AdvanceMovesForward(l, Lookup(l.requests, id).value, ops[0]);
      NeverRegresses(Apply(l, ops[0]).ledger, ops[1..], id);
    }
  }

  /** An acknowledgement that finds the request past the enqueue is refused and changes nothing. */
  lemma LateAcknowledgement(l: Ledger, id: string, jobId: string, at: nat)
    requires Lookup(l.requests, id).Some? && Progress(Lookup(l.requests, id).value.status) >= 2
    ensures Apply(l, Transition(id, Queued, Acknowledge(jobId, at))) == Outcome(l, InvalidTransition)
  {
  }

  // ── redelivery ──────────────────────────────────────────────────────────────

  lemma {:induction false} ChecksOnlyGrow(l: Ledger, ops: seq<Op>)
    ensures l.checks <= RunAll(l, ops).checks
    decreases |ops|
  {
    hide Find;
    if ops != [] {
      assert l.checks <= Apply(l, ops[0]).ledger.checks;
      ChecksOnlyGrow(Apply(l, ops[0]).ledger, ops[1..]);
    }
  }

  lemma FindCheckInExtension(cs: seq<Check>, more: seq<Check>, id: string)
    requires cs <= more && FindCheck(cs, id).Some?
    ensures FindCheck(more, id) == FindCheck(cs, id)
  {
    var a, b := FindCheck(cs, id), FindCheck(more, id);
    assert more[a.value].checkId == id;
    assert forall k :: 0 <= k < a.value ==> more[k] == cs[k];
  }

  /**
   Once a result is in, delivering it again at any later point of any run, whatever correlation it then
   carries, is answered as a duplicate, and a different result under its id as a conflict; neither changes
   anything.
   */
  lemma RedeliveryHasNoEffect(l: Ledger, first: Op, ops: seq<Op>, again: Op)
    requires first.Report? && Appended(l, first.check)
    requires again.Report? && again.check.checkId == first.check.checkId
    ensures var later := RunAll(Apply(l, first).ledger, ops);
            Apply(later, again)
            == Outcome(later, if again.check.facts == first.check.facts then Duplicate else Conflict)
  {
    var now := Apply(l, first).ledger;
    assert now.checks[|l.checks|].facts == first.check.facts;
    assert now.checks[|l.checks|].checkId == first.check.checkId;
    assert forall k :: 0 <= k < |l.checks| ==> now.checks[k] == l.checks[k];
    assert FindCheck(now.checks, first.check.checkId) == Some(|l.checks|);
    ChecksOnlyGrow(now, ops);
    FindCheckInExtension(now.checks, RunAll(now, ops).checks, first.check.checkId);
  }
}
