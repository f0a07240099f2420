/**
 What RegisterToolFunctionAtomic decides about one request against one index, and the whole-index
 facts that decision keeps. Nothing here touches a file: see StoreSteps for persistence.
 */
module Registration {
  import opened Wrappers
  import opened IndexModel

  /** The operation identity a receipt records and a replay is compared on. */
  datatype Operation = Operation(
    requestID: string,
    canonicalizationVersion: string,
    requestFingerprint: string,
    requestBasis: RequestBasis)
  {
    predicate Complete() {
      requestID != "" && canonicalizationVersion != "" && requestFingerprint != "" && requestBasis != NoBasis
    }
  }

  datatype Refusal =
    | IncompleteOperation
    | EmptyCasHash
    | RequestUnknownLegacy
    | RequestConflict
    | IndexInconsistent
    | UnreadableBasis
    | IdentityAmbiguous
    | EnvelopeConflict

  datatype Decision =
    | Refuse(why: Refusal)
    | Replay(existing: RegisteredToolFunction)
    | Reuse(existing: RegisteredToolFunction)
    | Create

  // ── lookups ─────────────────────────────────────────────────────────────────

  function FindReceiptFrom(receipts: seq<Receipt>, requestID: string, from: nat): (r: Option<nat>)
    requires from <= |receipts|
    ensures r.Some? ==> from <= r.value < |receipts| && receipts[r.value].requestID == requestID
    ensures r.Some? ==> forall i :: from <= i < r.value ==> receipts[i].requestID != requestID
    ensures r.None? ==> forall i :: from <= i < |receipts| ==> receipts[i].requestID != requestID
    decreases |receipts| - from
  {
    if from == |receipts| then None
    else if receipts[from].requestID == requestID then Some(from)
    else FindReceiptFrom(receipts, requestID, from + 1)
  }

  /** The first receipt with this id; the empty id never matches. */
  function FindReceipt(receipts: seq<Receipt>, requestID: string): (r: Option<nat>)
    ensures r.Some? ==> requestID != "" && r.value < |receipts| && receipts[r.value].requestID == requestID
    ensures r.Some? ==> forall i :: 0 <= i < r.value ==> receipts[i].requestID != requestID
    ensures r.None? && requestID != "" ==> forall i :: 0 <= i < |receipts| ==> receipts[i].requestID != requestID
  {
    if requestID == "" then None else FindReceiptFrom(receipts, requestID, 0)
  }

  function FindFunctionFrom(functions: seq<RegisteredToolFunction>, casHash: string, from: nat): (r: Option<nat>)
    requires from <= |functions|
    ensures r.Some? ==> from <= r.value < |functions| && functions[r.value].casHash == casHash
    ensures r.Some? ==> forall i :: from <= i < r.value ==> functions[i].casHash != casHash
    ensures r.None? ==> forall i :: from <= i < |functions| ==> functions[i].casHash != casHash
    decreases |functions| - from
  {
    if from == |functions| then None
    else if functions[from].casHash == casHash then Some(from)
    else FindFunctionFrom(functions, casHash, from + 1)
  }

  function FindFunction(functions: seq<RegisteredToolFunction>, casHash: string): (r: Option<nat>)
    ensures r.Some? ==> r.value < |functions| && functions[r.value].casHash == casHash
    ensures r.Some? ==> forall i :: 0 <= i < r.value ==> functions[i].casHash != casHash
    ensures r.None? ==> forall i :: 0 <= i < |functions| ==> functions[i].casHash != casHash
  {
    FindFunctionFrom(functions, casHash, 0)
  }

  // ── the digest-out envelope ─────────────────────────────────────────────────

  /** Why one existing record does not admit `basis` under its digest, if it does not. */
  function EnvelopeObjection(idx: Index, record: RegisteredToolFunction, basis: RequestBasis): Option<Refusal>
    requires basis.Basis?
  {
    var origin := FindReceipt(idx.receipts, record.requestID);
    if record.canonicalizationVersion == "" || origin.None? || !idx.receipts[origin.value].BasisKnown() then
      Some(IdentityAmbiguous)
    else
      var have := idx.receipts[origin.value].requestBasis;
      if !have.Basis? then Some(UnreadableBasis)
      else if have.validationPolicy != basis.validationPolicy || have.environmentHints != basis.environmentHints then
        Some(EnvelopeConflict)
      else None
  }

  function EnvelopeCheckFrom(idx: Index, basis: RequestBasis, digest: string, from: nat): (r: Option<Refusal>)
    requires basis.Basis? && from <= |idx.toolFunctions|
    ensures r.None? <==>
            (forall i :: from <= i < |idx.toolFunctions| && idx.toolFunctions[i].toolFunctionDigest == digest ==>
               EnvelopeObjection(idx, idx.toolFunctions[i], basis).None?)
    decreases |idx.toolFunctions| - from
  {
    if from == |idx.toolFunctions| then None
    else if idx.toolFunctions[from].toolFunctionDigest != digest then EnvelopeCheckFrom(idx, basis, digest, from + 1)
    else
      var objection := EnvelopeObjection(idx, idx.toolFunctions[from], basis);
      if objection.Some? then objection else EnvelopeCheckFrom(idx, basis, digest, from + 1)
  }

  /** The envelope rule for a new request id. A record without a digest is never compared. */
  function EnvelopeCheck(idx: Index, op: Operation, digest: string): Option<Refusal> {
    if digest == "" then None
    else if !op.requestBasis.Basis? then Some(UnreadableBasis)
    else EnvelopeCheckFrom(idx, op.requestBasis, digest, 0)
  }

  // ── the decision ────────────────────────────────────────────────────────────

  predicate SameOperation(receipt: Receipt, op: Operation) {
    && receipt.canonicalizationVersion == op.canonicalizationVersion
    && receipt.requestFingerprint == op.requestFingerprint
    && receipt.requestBasis == op.requestBasis
  }

  /** Whether the record's originating receipt proves the same version and full request basis. */
  predicate ReuseProven(idx: Index, op: Operation, record: RegisteredToolFunction) {
    var origin := FindReceipt(idx.receipts, record.requestID);
    && record.canonicalizationVersion != ""
    && origin.Some?
    && idx.receipts[origin.value].BasisKnown()
    && SameOperation(idx.receipts[origin.value], op)
  }

  /** The fixed order of checks: request id, envelope, content. */
  function Decide(idx: Index, op: Operation, rec: RegisteredToolFunction): Decision {
    if rec.casHash == "" then Refuse(EmptyCasHash)
    else
      match FindReceipt(idx.receipts, op.requestID)
      case Some(at) =>
        var prior := idx.receipts[at];
        if !prior.BasisKnown() then Refuse(RequestUnknownLegacy)
        else if !SameOperation(prior, op) || prior.casHash != rec.casHash then Refuse(RequestConflict)
        else
          (match FindFunction(idx.toolFunctions, prior.casHash)
           case None => Refuse(IndexInconsistent)
           case Some(k) => Replay(idx.toolFunctions[k]))
      case None =>
        match EnvelopeCheck(idx, op, rec.toolFunctionDigest)
        case Some(why) => Refuse(why)
        case None =>
          match FindFunction(idx.toolFunctions, rec.casHash)
          case None => Create
          case Some(k) =>
            if ReuseProven(idx, op, idx.toolFunctions[k]) then Reuse(idx.toolFunctions[k])
            else Refuse(IdentityAmbiguous)
  }

  // ── what a decision adds ────────────────────────────────────────────────────

  function Completed(rec: RegisteredToolFunction, op: Operation, now: nat): RegisteredToolFunction {
    rec.(
      requestID := if rec.requestID == "" then op.requestID else rec.requestID,
      canonicalizationVersion :=
        if rec.canonicalizationVersion == "" then op.canonicalizationVersion else rec.canonicalizationVersion,
      registeredAt := OrNow(rec.registeredAt, now),
      lifecycleUpdatedAt := OrNow(rec.lifecycleUpdatedAt, now),
      lifecyclePhase := if rec.lifecyclePhase == UnsetPhase then PhaseActive else rec.lifecyclePhase,
      artifactKind := if rec.artifactKind == "" then KIND_TOOL_FUNCTION else rec.artifactKind)
  }

  function ReceiptOf(op: Operation, rec: RegisteredToolFunction, now: nat): Receipt {
    Receipt(op.requestID, rec.casHash, rec.toolFunctionDigest, rec.presentationRevisionID,
            op.canonicalizationVersion, op.requestFingerprint, op.requestBasis, now)
  }

  /** Revisions are content-addressed: an absent, id-less or already stored one adds nothing. */
  function AddRevision(revisions: seq<PresentationRevision>, rev: Option<PresentationRevision>, now: nat)
    : (r: seq<PresentationRevision>)
    ensures revisions <= r
  {
    if rev.None? || rev.value.revisionID == "" then revisions
    else if exists i :: 0 <= i < |revisions| && revisions[i].revisionID == rev.value.revisionID then revisions
    else revisions + [rev.value.(createdAt := OrNow(rev.value.createdAt, now))]
  }

  /** What one accepted registration appends to the index. */
  datatype Addition =
    | NewReceipt(receipt: Receipt)
    | NewFunction(function_: RegisteredToolFunction, revision: Option<PresentationRevision>, receipt: Receipt, now: nat)

  function Add(idx: Index, a: Addition): Index {
    match a
    case NewReceipt(receipt) => idx.(receipts := idx.receipts + [receipt])
    case NewFunction(f, rev, receipt, now) =>
      idx.(toolFunctions := idx.toolFunctions + [f],
           revisions := AddRevision(idx.revisions, rev, now),
           receipts := idx.receipts + [receipt])
  }

  function AdditionOf(d: Decision, op: Operation, rec: RegisteredToolFunction,
                      rev: Option<PresentationRevision>, now: nat): Addition
    requires d.Reuse? || d.Create?
  {
    if d.Reuse? then NewReceipt(ReceiptOf(op, d.existing, now))
    else NewFunction(Completed(rec, op, now), rev, ReceiptOf(op, Completed(rec, op, now), now), now)
  }

  // ── the invariant of the three sections ─────────────────────────────────────

  predicate Versioned(r: RegisteredToolFunction) {
    r.canonicalizationVersion != ""
  }

  ghost predicate ReceiptsUnique(receipts: seq<Receipt>) {
    forall i, j :: 0 <= i < j < |receipts| ==> receipts[i].requestID != receipts[j].requestID
  }

  ghost predicate FunctionsUnique(functions: seq<RegisteredToolFunction>) {
    forall i, j :: 0 <= i < j < |functions| ==> functions[i].casHash != functions[j].casHash
  }

  /** The receipt that first created the record is present, readable, and names the record. */
  predicate OriginNamed(receipts: seq<Receipt>, r: RegisteredToolFunction) {
    var at := FindReceipt(receipts, r.requestID);
    && at.Some?
    && receipts[at.value].BasisKnown()
    && receipts[at.value].casHash == r.casHash
    && receipts[at.value].toolFunctionDigest == r.toolFunctionDigest
    && (r.toolFunctionDigest != "" ==> receipts[at.value].requestBasis.Basis?)
  }

  /** Two records under one digest were registered with the same digest-out envelope. */
  predicate EnvelopesAgree(receipts: seq<Receipt>, a: RegisteredToolFunction, b: RegisteredToolFunction)
    requires OriginNamed(receipts, a) && OriginNamed(receipts, b)
    requires a.toolFunctionDigest != "" && b.toolFunctionDigest != ""
  {
    var x := receipts[FindReceipt(receipts, a.requestID).value].requestBasis;
    var y := receipts[FindReceipt(receipts, b.requestID).value].requestBasis;
    x.validationPolicy == y.validationPolicy && x.environmentHints == y.environmentHints
  }

  ghost predicate OriginsNamed(idx: Index) {
    forall i :: 0 <= i < |idx.toolFunctions| && Versioned(idx.toolFunctions[i])
      ==> OriginNamed(idx.receipts, idx.toolFunctions[i])
  }

  ghost predicate EnvelopeAgreement(idx: Index)
    requires OriginsNamed(idx)
  {
    forall i, j :: 0 <= i < |idx.toolFunctions| && 0 <= j < |idx.toolFunctions|
      && Versioned(idx.toolFunctions[i]) && Versioned(idx.toolFunctions[j])
      && idx.toolFunctions[i].toolFunctionDigest == idx.toolFunctions[j].toolFunctionDigest != ""
      ==> EnvelopesAgree(idx.receipts, idx.toolFunctions[i], idx.toolFunctions[j])
  }

  /** Only the records named in `legacy` predate versioned writes. */
  ghost predicate LegacyWithin(functions: seq<RegisteredToolFunction>, legacy: set<string>) {
    forall i :: 0 <= i < |functions| ==> Versioned(functions[i]) || functions[i].casHash in legacy
  }

  /**
   The receipt was written for this record by a request with the version, fingerprint and basis of the one that
   created it.
   */
  predicate TracedTo(receipts: seq<Receipt>, receipt: Receipt, r: RegisteredToolFunction) {
    var origin := FindReceipt(receipts, r.requestID);
    && receipt.casHash == r.casHash
    && Versioned(r) && receipt.BasisKnown()
    && origin.Some?
    && receipt.canonicalizationVersion == receipts[origin.value].canonicalizationVersion
    && receipt.requestFingerprint == receipts[origin.value].requestFingerprint
    && receipt.requestBasis == receipts[origin.value].requestBasis
  }

  predicate Traced(idx: Index, receipt: Receipt) {
    exists k :: 0 <= k < |idx.toolFunctions| && TracedTo(idx.receipts, receipt, idx.toolFunctions[k])
  }

  /** Every receipt, but for the `legacy` casHashes, is traced to its record. */
  ghost predicate ReceiptsTraced(idx: Index, legacy: set<string>) {
    forall i :: 0 <= i < |idx.receipts| ==> idx.receipts[i].casHash in legacy || Traced(idx, idx.receipts[i])
  }

  /** The rules without the last: they hold of an index between the two appends of a creation, too. */
  ghost predicate Consistent(idx: Index, legacy: set<string>) {
    && ReceiptsUnique(idx.receipts)
    && FunctionsUnique(idx.toolFunctions)
    && LegacyWithin(idx.toolFunctions, legacy)
    && OriginsNamed(idx)
    && EnvelopeAgreement(idx)
  }

  /** What the `legacy` casHashes name was written before versioned writes and is exempt: it has no provable origin. */
  ghost predicate WellFormed(idx: Index, legacy: set<string>) {
    Consistent(idx, legacy) && ReceiptsTraced(idx, legacy)
  }

  /** What the one caller guarantees: the record is the operation's own. */
  predicate RecordOfOperation(op: Operation, rec: RegisteredToolFunction) {
    rec.requestID == "" || rec.requestID == op.requestID
  }

  lemma FindReceiptIs(receipts: seq<Receipt>, requestID: string, k: nat)
    requires requestID != "" && k < |receipts| && receipts[k].requestID == requestID
    requires forall i :: 0 <= i < k ==> receipts[i].requestID != requestID
    ensures FindReceipt(receipts, requestID) == Some(k)
  {
    var at := FindReceipt(receipts, requestID);
    assert at.Some?;
  }

  lemma FindFunctionIs(functions: seq<RegisteredToolFunction>, casHash: string, k: nat)
    requires k < |functions| && functions[k].casHash == casHash
    requires forall i :: 0 <= i < k ==> functions[i].casHash != casHash
    ensures FindFunction(functions, casHash) == Some(k)
  {
    var at := FindFunction(functions, casHash);
    assert at.Some?;
  }

  lemma FindReceiptInPrefix(a: seq<Receipt>, b: seq<Receipt>, requestID: string)
    requires a <= b
    requires FindReceipt(a, requestID).Some?
    ensures FindReceipt(b, requestID) == FindReceipt(a, requestID)
  {
    FindReceiptIs(b, requestID, FindReceipt(a, requestID).value);
  }

  lemma OriginNamedInPrefix(a: seq<Receipt>, b: seq<Receipt>, r: RegisteredToolFunction)
    requires a <= b && OriginNamed(a, r)
    ensures OriginNamed(b, r)
    ensures b[FindReceipt(b, r.requestID).value] == a[FindReceipt(a, r.requestID).value]
  {
    FindReceiptInPrefix(a, b, r.requestID);
  }

  /** Appending a receipt under an unused request id keeps the invariant. */
  lemma AddReceiptKeeps(idx: Index, receipt: Receipt, legacy: set<string>)
    requires Consistent(idx, legacy)
    requires receipt.requestID != "" && FindReceipt(idx.receipts, receipt.requestID).None?
    ensures Consistent(Add(idx, NewReceipt(receipt)), legacy)
  {
    var idx' := Add(idx, NewReceipt(receipt));
    forall i | 0 <= i < |idx.toolFunctions| && Versioned(idx.toolFunctions[i])
      ensures OriginNamed(idx'.receipts, idx.toolFunctions[i])
      ensures idx'.receipts[FindReceipt(idx'.receipts, idx.toolFunctions[i].requestID).value]
           == idx.receipts[FindReceipt(idx.receipts, idx.toolFunctions[i].requestID).value]
    {
      OriginNamedInPrefix(idx.receipts, idx'.receipts, idx.toolFunctions[i]);
    }
  }

  /**
   Every accepted registration keeps the invariant: receipts stay unique by request id, records by
   casHash, each record's origin names it, every digest keeps one envelope, and every receipt repeats the
   version, fingerprint and basis of its record's origin.
   */
  lemma RegistrationKeepsWellFormed(idx: Index, op: Operation, rec: RegisteredToolFunction,
                                    rev: Option<PresentationRevision>, now: nat, legacy: set<string>)
    requires WellFormed(idx, legacy) && op.Complete() && RecordOfOperation(op, rec)
    requires var d := Decide(idx, op, rec); d.Reuse? || d.Create?
    ensures WellFormed(Add(idx, AdditionOf(Decide(idx, op, rec), op, rec, rev, now)), legacy)
  {
    hide Decide;
    var d := Decide(idx, op, rec);
    if d.Reuse? {
      ReuseKeeps(idx, op, rec, now, legacy);
    } else {
      CreateKeeps(idx, op, rec, rev, now, legacy);
      CreationIsTraced(idx, op, rec, rev, now, legacy);
    }
  }

  lemma TracedStays(idx: Index, more: Index, receipt: Receipt)
    requires idx.toolFunctions <= more.toolFunctions && idx.receipts <= more.receipts && Traced(idx, receipt)
    ensures Traced(more, receipt)
  {
    var k :| 0 <= k < |idx.toolFunctions| && TracedTo(idx.receipts, receipt, idx.toolFunctions[k]);
    FindReceiptInPrefix(idx.receipts, more.receipts, idx.toolFunctions[k].requestID);
    assert more.toolFunctions[k] == idx.toolFunctions[k];
    assert TracedTo(more.receipts, receipt, more.toolFunctions[k]);
  }

  lemma ReuseKeeps(idx: Index, op: Operation, rec: RegisteredToolFunction, now: nat, legacy: set<string>)
    requires WellFormed(idx, legacy) && op.Complete() && Decide(idx, op, rec).Reuse?
    ensures WellFormed(Add(idx, NewReceipt(ReceiptOf(op, Decide(idx, op, rec).existing, now))), legacy)
  {
    var existing := Decide(idx, op, rec).existing;
    var receipt := ReceiptOf(op, existing, now);
    AddReceiptKeeps(idx, receipt, legacy);
    var more := Add(idx, NewReceipt(receipt));
    var k := FindFunction(idx.toolFunctions, rec.casHash).value;
    FindReceiptInPrefix(idx.receipts, more.receipts, existing.requestID);
    assert TracedTo(more.receipts, receipt, more.toolFunctions[k]);
    forall i | 0 <= i < |more.receipts| ensures more.receipts[i].casHash in legacy || Traced(more, more.receipts[i]) {
      if i < |idx.receipts| && idx.receipts[i].casHash !in legacy { TracedStays(idx, more, idx.receipts[i]); }
    }
  }

  lemma CreationIsTraced(idx: Index, op: Operation, rec: RegisteredToolFunction,
                         rev: Option<PresentationRevision>, now: nat, legacy: set<string>)
    requires ReceiptsTraced(idx, legacy) && op.Complete() && RecordOfOperation(op, rec)
    requires Decide(idx, op, rec).Create?
    ensures ReceiptsTraced(Add(idx, AdditionOf(Create, op, rec, rev, now)), legacy)
  {
    var f := Completed(rec, op, now);
    var more := Add(idx, AdditionOf(Create, op, rec, rev, now));
    FindReceiptIs(more.receipts, op.requestID, |idx.receipts|);
    assert more.toolFunctions[|idx.toolFunctions|] == f;
    assert TracedTo(more.receipts, ReceiptOf(op, f, now), f);
    forall i | 0 <= i < |more.receipts| ensures more.receipts[i].casHash in legacy || Traced(more, more.receipts[i]) {
      if i < |idx.receipts| && idx.receipts[i].casHash !in legacy { TracedStays(idx, more, idx.receipts[i]); }
    }
  }

  lemma CreateKeeps(idx: Index, op: Operation, rec: RegisteredToolFunction,
                    rev: Option<PresentationRevision>, now: nat, legacy: set<string>)
    requires Consistent(idx, legacy) && op.Complete() && RecordOfOperation(op, rec)
    requires Decide(idx, op, rec).Create?
    ensures Consistent(Add(idx, AdditionOf(Create, op, rec, rev, now)), legacy)
  {
    var f := Completed(rec, op, now);
    var receipt := ReceiptOf(op, f, now);
    AddReceiptKeeps(idx, receipt, legacy);
    var mid := Add(idx, NewReceipt(receipt));
    FindReceiptIs(mid.receipts, op.requestID, |idx.receipts|);
    forall i | 0 <= i < |idx.toolFunctions| && Versioned(idx.toolFunctions[i])
      && idx.toolFunctions[i].toolFunctionDigest == f.toolFunctionDigest != ""
      ensures EnvelopesAgree(mid.receipts, idx.toolFunctions[i], f)
    {
      assert EnvelopeObjection(idx, idx.toolFunctions[i], op.requestBasis).None?;
      OriginNamedInPrefix(idx.receipts, mid.receipts, idx.toolFunctions[i]);
    }
    AddFunctionKeeps(mid, f, AddRevision(idx.revisions, rev, now), legacy);
  }

  lemma AddFunctionKeeps(mid: Index, f: RegisteredToolFunction, revisions: seq<PresentationRevision>,
                         legacy: set<string>)
    requires Consistent(mid, legacy)
    requires FindFunction(mid.toolFunctions, f.casHash).None?
    requires OriginNamed(mid.receipts, f) && Versioned(f)
    requires forall i :: 0 <= i < |mid.toolFunctions| && Versioned(mid.toolFunctions[i])
               && mid.toolFunctions[i].toolFunctionDigest == f.toolFunctionDigest != ""
               ==> EnvelopesAgree(mid.receipts, mid.toolFunctions[i], f)
    ensures Consistent(mid.(toolFunctions := mid.toolFunctions + [f], revisions := revisions), legacy)
  {
    var idx' := mid.(toolFunctions := mid.toolFunctions + [f], revisions := revisions);
    assert OriginsNamed(idx');
    forall i, j | 0 <= i < |idx'.toolFunctions| && 0 <= j < |idx'.toolFunctions|
      && Versioned(idx'.toolFunctions[i]) && Versioned(idx'.toolFunctions[j])
      && idx'.toolFunctions[i].toolFunctionDigest == idx'.toolFunctions[j].toolFunctionDigest != ""
      ensures EnvelopesAgree(idx'.receipts, idx'.toolFunctions[i], idx'.toolFunctions[j])
    {
      var n := |mid.toolFunctions|;
      if i < n && j < n {
        assert idx'.toolFunctions[i] == mid.toolFunctions[i] && idx'.toolFunctions[j] == mid.toolFunctions[j];
      } else if i < n {
        assert EnvelopesAgree(mid.receipts, mid.toolFunctions[i], f);
      } else if j < n {
        assert EnvelopesAgree(mid.receipts, mid.toolFunctions[j], f);
      }
    }
  }

  // ── idempotency ─────────────────────────────────────────────────────────────

  /** A success for `op` that returned `stored` is on file: its receipt, and that very record. */
  predicate OnFile(idx: Index, op: Operation, stored: RegisteredToolFunction) {
    var at := FindReceipt(idx.receipts, op.requestID);
    var k := FindFunction(idx.toolFunctions, stored.casHash);
    && at.Some?
    && SameOperation(idx.receipts[at.value], op)
    && idx.receipts[at.value].casHash == stored.casHash
    && k.Some? && idx.toolFunctions[k.value] == stored
  }

  /** The record a success hands back. */
  function Stored(d: Decision, op: Operation, rec: RegisteredToolFunction, now: nat): RegisteredToolFunction
    requires !d.Refuse?
  {
    if d.Create? then Completed(rec, op, now) else d.existing
  }

  /** Whatever an accepted request returns is on file once its addition is made. */
  lemma AcceptedIsOnFile(idx: Index, op: Operation, rec: RegisteredToolFunction,
                         rev: Option<PresentationRevision>, now: nat)
    requires op.Complete()
    ensures var d := Decide(idx, op, rec);
            && (!d.Refuse? ==> Stored(d, op, rec, now).casHash == rec.casHash)
            && (d.Replay? ==> OnFile(idx, op, d.existing))
            && (d.Reuse? || d.Create? ==>
                  OnFile(Add(idx, AdditionOf(d, op, rec, rev, now)), op, Stored(d, op, rec, now)))
  {
    var d := Decide(idx, op, rec);
    if d.Reuse? || d.Create? {
      var idx' := Add(idx, AdditionOf(d, op, rec, rev, now));
      FindReceiptIs(idx'.receipts, op.requestID, |idx.receipts|);
      if d.Create? {
        FindFunctionIs(idx'.toolFunctions, rec.casHash, |idx.toolFunctions|);
      }
    }
  }

  /** What is on file stays on file however the sections grow. */
  lemma OnFileInExtension(a: Index, b: Index, op: Operation, stored: RegisteredToolFunction)
    requires ToolFunctionsPrefix(a, b) && OnFile(a, op, stored)
    ensures OnFile(b, op, stored)
  {
    FindReceiptInPrefix(a.receipts, b.receipts, op.requestID);
    FindFunctionIs(b.toolFunctions, stored.casHash, FindFunction(a.toolFunctions, stored.casHash).value);
  }

  /**
   Once a request is on file, in this index or any extension of it, the same request replays the
   stored record unchanged, and the same request id with any other version, fingerprint, basis or
   casHash is refused as a conflict.
   */
  lemma OnFileDecides(a: Index, b: Index, op: Operation, stored: RegisteredToolFunction,
                      op': Operation, rec: RegisteredToolFunction)
    requires ToolFunctionsPrefix(a, b) && OnFile(a, op, stored) && op.Complete()
    requires op'.requestID == op.requestID && rec.casHash != ""
    ensures op' == op && rec.casHash == stored.casHash ==> Decide(b, op', rec) == Replay(stored)
    ensures !(op' == op && rec.casHash == stored.casHash) ==> Decide(b, op', rec) == Refuse(RequestConflict)
  {
    OnFileInExtension(a, b, op, stored);
  }

  /** Two requests on file in one index under one id are the same request with the same result. */
  lemma OnFileTwiceAgrees(idx: Index, op: Operation, stored: RegisteredToolFunction,
                          op': Operation, stored': RegisteredToolFunction)
    requires OnFile(idx, op, stored) && OnFile(idx, op', stored')
    requires op.requestID == op'.requestID
    ensures op == op' && stored == stored'
  {
    assert FindReceipt(idx.receipts, op.requestID) == FindReceipt(idx.receipts, op'.requestID);
  }

  // ── where the rules stop holding ────────────────────────────────────────────

  /**
   The envelope rule admits a new request exactly when its digest is empty, or its basis is readable
   and every record already under the digest was provably registered with the same envelope.
   */
  lemma EnvelopeCheckExact(idx: Index, op: Operation, digest: string)
    ensures EnvelopeCheck(idx, op, digest).None? <==>
            digest == "" ||
            (op.requestBasis.Basis? &&
             forall i :: 0 <= i < |idx.toolFunctions| && idx.toolFunctions[i].toolFunctionDigest == digest ==>
               EnvelopeObjection(idx, idx.toolFunctions[i], op.requestBasis).None?)
  {
  }

  /**
   Without a digest the envelope rule is skipped, so two records sharing the empty digest can be
   registered with different policies; with a digest the second one is refused.
   */
  lemma EmptyDigestEscapesEnvelopeRule(digest: string)
    ensures var one := Operation("r1", "w2-set-v1", "f1", Basis(Some("p1"), None, ""));
            var two := Operation("r2", "w2-set-v1", "f2", Basis(Some("p2"), None, ""));
            var rec1 := RegisteredToolFunction("c1", digest, "", "", "", "", "", "", UnsetPhase, HealthPartial, 0, 0);
            var rec2 := rec1.(casHash := "c2");
            var idx := Add(EMPTY_INDEX, AdditionOf(Create, one, rec1, None, 1));
            && Decide(EMPTY_INDEX, one, rec1) == Create
            && (Decide(idx, two, rec2) == Create <==> digest == "")
            && (Decide(idx, two, rec2) == Refuse(EnvelopeConflict) <==> digest != "")
  {
    var one := Operation("r1", "w2-set-v1", "f1", Basis(Some("p1"), None, ""));
    var two := Operation("r2", "w2-set-v1", "f2", Basis(Some("p2"), None, ""));
    var rec1 := RegisteredToolFunction("c1", digest, "", "", "", "", "", "", UnsetPhase, HealthPartial, 0, 0);
    var rec2 := rec1.(casHash := "c2");
    var idx := Add(EMPTY_INDEX, AdditionOf(Create, one, rec1, None, 1));
    assert idx.receipts == [ReceiptOf(one, Completed(rec1, one, 1), 1)];
    assert idx.toolFunctions == [Completed(rec1, one, 1)];
    assert FindReceipt(idx.receipts, "r1") == Some(0);
    assert FindReceipt(idx.receipts, "r2") == None;
    assert "p1"[1] != "p2"[1];
  }

  /**
   A caller that names a foreign request id in the record breaks the origin rule: the record then
   claims an origin that never named it. This is why RecordOfOperation is asked of the caller.
   */
  lemma ForeignRequestIdBreaksOrigin()
    ensures var op := Operation("r1", "w2-set-v1", "f1", Basis(None, None, ""));
            var rec := RegisteredToolFunction("c1", "d1", "", "", "", "", "r0", "", UnsetPhase, HealthPartial, 0, 0);
            && op.Complete() && !RecordOfOperation(op, rec)
            && Decide(EMPTY_INDEX, op, rec) == Create
            && !OriginsNamed(Add(EMPTY_INDEX, AdditionOf(Create, op, rec, None, 1)))
  {
    var op := Operation("r1", "w2-set-v1", "f1", Basis(None, None, ""));
    var rec := RegisteredToolFunction("c1", "d1", "", "", "", "", "r0", "", UnsetPhase, HealthPartial, 0, 0);
    var idx := Add(EMPTY_INDEX, AdditionOf(Create, op, rec, None, 1));
    assert idx.receipts == [ReceiptOf(op, Completed(rec, op, 1), 1)];
    assert Versioned(idx.toolFunctions[0]);
    assert "r0"[1] != "r1"[1];
    assert FindReceipt(idx.receipts, "r0").None?;
  }
}
