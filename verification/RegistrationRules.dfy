/**
 What the decision about a registration means, spelled out from the receipts and records on file: when a request is
 a replay, a reuse, a creation or refused, and what a success then leaves on file.
 */
module RegistrationRules {
  import opened Wrappers
  import opened IndexModel
  import opened Registration

  // ── what is on file ─────────────────────────────────────────────────────────

  /** The receipt that decides about a request id: the first one under it. */
  predicate IsReceiptOf(receipts: seq<Receipt>, requestID: string, at: nat) {
    && requestID != "" && at < |receipts| && receipts[at].requestID == requestID
    && forall i :: 0 <= i < at ==> receipts[i].requestID != requestID
  }

  predicate IsUnseen(receipts: seq<Receipt>, requestID: string) {
    requestID == "" || forall i :: 0 <= i < |receipts| ==> receipts[i].requestID != requestID
  }

  /** The record that a casHash names: the first one under it. */
  predicate IsRecordOf(functions: seq<RegisteredToolFunction>, casHash: string, k: nat) {
    && k < |functions| && functions[k].casHash == casHash
    && forall i :: 0 <= i < k ==> functions[i].casHash != casHash
  }

  /** The record is versioned, and this readable receipt is the first under its request id. */
  predicate IsOrigin(idx: Index, record: RegisteredToolFunction, at: nat) {
    && record.canonicalizationVersion != ""
    && IsReceiptOf(idx.receipts, record.requestID, at)
    && idx.receipts[at].canonicalizationVersion != ""
    && idx.receipts[at].requestFingerprint != ""
    && idx.receipts[at].requestBasis != NoBasis
  }

  predicate HasOrigin(idx: Index, record: RegisteredToolFunction) {
    exists at :: 0 <= at < |idx.receipts| && IsOrigin(idx, record, at)
  }

  /** The record's origin was requested with this very version, fingerprint and basis. */
  predicate OriginMatches(idx: Index, record: RegisteredToolFunction, op: Operation) {
    exists at :: 0 <= at < |idx.receipts| && IsOrigin(idx, record, at)
                 && idx.receipts[at].canonicalizationVersion == op.canonicalizationVersion
                 && idx.receipts[at].requestFingerprint == op.requestFingerprint
                 && idx.receipts[at].requestBasis == op.requestBasis
  }

  predicate OriginReadable(idx: Index, record: RegisteredToolFunction) {
    exists at :: 0 <= at < |idx.receipts| && IsOrigin(idx, record, at) && idx.receipts[at].requestBasis.Basis?
  }

  /** The record's origin was requested with this policy and these hints. */
  predicate EnvelopeMatches(idx: Index, record: RegisteredToolFunction, basis: RequestBasis)
    requires basis.Basis?
  {
    exists at :: 0 <= at < |idx.receipts| && IsOrigin(idx, record, at) && idx.receipts[at].requestBasis.Basis?
                 && idx.receipts[at].requestBasis.validationPolicy == basis.validationPolicy
                 && idx.receipts[at].requestBasis.environmentHints == basis.environmentHints
  }

  /** Every record under the digest was requested with the operation's policy and hints. */
  predicate EnvelopeAdmits(idx: Index, op: Operation, digest: string) {
    digest == "" ||
    (op.requestBasis.Basis? &&
     forall k :: 0 <= k < |idx.toolFunctions| && idx.toolFunctions[k].toolFunctionDigest == digest
       ==> EnvelopeMatches(idx, idx.toolFunctions[k], op.requestBasis))
  }

  // ── a request id that is already on file ────────────────────────────────────

  /**
   A known request id is decided by its receipt alone: unreadable it cannot be replayed, different in any of
   version, fingerprint, basis and casHash it is a conflict, and otherwise the record it names is handed back.
   */
  lemma KnownRequest(idx: Index, op: Operation, rec: RegisteredToolFunction, at: nat)
    requires rec.casHash != "" && IsReceiptOf(idx.receipts, op.requestID, at)
    ensures var prior, d := idx.receipts[at], Decide(idx, op, rec);
            var known := prior.canonicalizationVersion != "" && prior.requestFingerprint != ""
                         && prior.requestBasis != NoBasis;
            var same := prior.canonicalizationVersion == op.canonicalizationVersion
                        && prior.requestFingerprint == op.requestFingerprint
                        && prior.requestBasis == op.requestBasis && prior.casHash == rec.casHash;
            && (d == Refuse(RequestUnknownLegacy) <==> !known)
            && (d == Refuse(RequestConflict) <==> known && !same)
            && (d == Refuse(IndexInconsistent) <==>
                  known && same && forall k :: 0 <= k < |idx.toolFunctions| ==>
                    idx.toolFunctions[k].casHash != rec.casHash)
            && (d.Replay? ==> known && same)
            && (known && same ==>
                  forall k :: 0 <= k < |idx.toolFunctions| && IsRecordOf(idx.toolFunctions, rec.casHash, k) ==>
                    d == Replay(idx.toolFunctions[k]))
  {
    FindReceiptIs(idx.receipts, op.requestID, at);
    if k :| 0 <= k < |idx.toolFunctions| && IsRecordOf(idx.toolFunctions, rec.casHash, k) {
      FindFunctionIs(idx.toolFunctions, rec.casHash, k);
    }
    var found := FindFunction(idx.toolFunctions, rec.casHash);
    assert found.Some? ==> IsRecordOf(idx.toolFunctions, rec.casHash, found.value);
  }

  /** A record without a casHash is refused whatever is on file, and no other is refused for that. */
  lemma NamelessRecord(idx: Index, op: Operation, rec: RegisteredToolFunction)
    ensures Decide(idx, op, rec) == Refuse(EmptyCasHash) <==> rec.casHash == ""
  {
    if op.requestBasis.Basis? { ObjectionsAreNeverThat(idx, op.requestBasis, rec.toolFunctionDigest, 0); }
  }

  lemma {:induction false} ObjectionsAreNeverThat(idx: Index, basis: RequestBasis, digest: string, from: nat)
    requires basis.Basis? && from <= |idx.toolFunctions|
    ensures EnvelopeCheckFrom(idx, basis, digest, from) != Some(EmptyCasHash)
    decreases |idx.toolFunctions| - from
  {
    if from < |idx.toolFunctions| { ObjectionsAreNeverThat(idx, basis, digest, from + 1); }
  }

  // ── a new request id ────────────────────────────────────────────────────────

  lemma OriginIs(idx: Index, record: RegisteredToolFunction, at: nat)
    requires at < |idx.receipts| && IsOrigin(idx, record, at)
    ensures FindReceipt(idx.receipts, record.requestID) == Some(at)
  {
    FindReceiptIs(idx.receipts, record.requestID, at);
  }

  lemma OriginIsFound(idx: Index, record: RegisteredToolFunction)
    ensures var at := FindReceipt(idx.receipts, record.requestID);
            HasOrigin(idx, record) <==> at.Some? && IsOrigin(idx, record, at.value)
  {
    if at :| 0 <= at < |idx.receipts| && IsOrigin(idx, record, at) { OriginIs(idx, record, at); }
  }

  lemma ReuseMeans(idx: Index, op: Operation, record: RegisteredToolFunction)
    ensures ReuseProven(idx, op, record) <==> OriginMatches(idx, record, op)
  {
    if at :| 0 <= at < |idx.receipts| && IsOrigin(idx, record, at) { OriginIs(idx, record, at); }
    if ReuseProven(idx, op, record) {
      var at := FindReceipt(idx.receipts, record.requestID).value;
      assert IsOrigin(idx, record, at);
    }
  }

  lemma ObjectionMeans(idx: Index, record: RegisteredToolFunction, basis: RequestBasis)
    requires basis.Basis?
    ensures var o := EnvelopeObjection(idx, record, basis);
            && (o.None? <==> EnvelopeMatches(idx, record, basis))
            && (o == Some(IdentityAmbiguous) <==> !HasOrigin(idx, record))
            && (o == Some(UnreadableBasis) <==> HasOrigin(idx, record) && !OriginReadable(idx, record))
            && (o == Some(EnvelopeConflict) <==> OriginReadable(idx, record) && !EnvelopeMatches(idx, record, basis))
  {
    if at :| 0 <= at < |idx.receipts| && IsOrigin(idx, record, at) {
      OriginIs(idx, record, at);
    } else {
      var at := FindReceipt(idx.receipts, record.requestID);
      assert at.Some? ==> !IsOrigin(idx, record, at.value);
    }
  }

  lemma EnvelopeMeans(idx: Index, op: Operation, digest: string)
    ensures EnvelopeCheck(idx, op, digest).None? <==> EnvelopeAdmits(idx, op, digest)
  {
    hide EnvelopeObjection, EnvelopeMatches;
    if op.requestBasis.Basis? {
      forall k | 0 <= k < |idx.toolFunctions|
        ensures EnvelopeObjection(idx, idx.toolFunctions[k], op.requestBasis).None?
                <==> EnvelopeMatches(idx, idx.toolFunctions[k], op.requestBasis)
      {
        ObjectionMeans(idx, idx.toolFunctions[k], op.requestBasis);
      }
    }
  }

  lemma UnseenIsNotFound(receipts: seq<Receipt>, requestID: string)
    requires IsUnseen(receipts, requestID)
    ensures FindReceipt(receipts, requestID).None?
  {
  }

  /**
   A new request id that the envelope rule admits creates a record exactly when its casHash is not on file. When it
   is, the record there is reused exactly when it is versioned and the receipt under its request id is readable and
   has the version, fingerprint and basis of the request; otherwise the identity is ambiguous.
   */
  lemma NewRequest(idx: Index, op: Operation, rec: RegisteredToolFunction)
    requires rec.casHash != "" && IsUnseen(idx.receipts, op.requestID)
    requires EnvelopeAdmits(idx, op, rec.toolFunctionDigest)
    ensures var d := Decide(idx, op, rec);
            && (d == Create <==>
                  forall k :: 0 <= k < |idx.toolFunctions| ==> idx.toolFunctions[k].casHash != rec.casHash)
            && (forall k :: 0 <= k < |idx.toolFunctions| && IsRecordOf(idx.toolFunctions, rec.casHash, k) ==>
                  d == if OriginMatches(idx, idx.toolFunctions[k], op) then Reuse(idx.toolFunctions[k])
                       else Refuse(IdentityAmbiguous))
  {
    hide EnvelopeCheck, ReuseProven, OriginMatches, EnvelopeAdmits;
    UnseenIsNotFound(idx.receipts, op.requestID);
    EnvelopeMeans(idx, op, rec.toolFunctionDigest);
    forall k | 0 <= k < |idx.toolFunctions| && IsRecordOf(idx.toolFunctions, rec.casHash, k)
      ensures FindFunction(idx.toolFunctions, rec.casHash) == Some(k)
      ensures ReuseProven(idx, op, idx.toolFunctions[k]) <==> OriginMatches(idx, idx.toolFunctions[k], op)
    {
      FindFunctionIs(idx.toolFunctions, rec.casHash, k);
      ReuseMeans(idx, op, idx.toolFunctions[k]);
    }
    var found := FindFunction(idx.toolFunctions, rec.casHash);
    assert found.Some? ==> IsRecordOf(idx.toolFunctions, rec.casHash, found.value);
  }

  /**
   A new request id under a digest is refused before its casHash is looked at when its basis is unreadable, or by
   the first record under the digest whose origin was not requested with the same policy and hints: an ambiguous
   identity if it has no origin, an unreadable basis if the origin's is, a conflict otherwise.
   */
  lemma EnvelopeRefuses(idx: Index, op: Operation, rec: RegisteredToolFunction, k: nat)
    requires rec.casHash != "" && IsUnseen(idx.receipts, op.requestID) && rec.toolFunctionDigest != ""
    ensures !op.requestBasis.Basis? ==> Decide(idx, op, rec) == Refuse(UnreadableBasis)
    ensures op.requestBasis.Basis? && k < |idx.toolFunctions|
            && idx.toolFunctions[k].toolFunctionDigest == rec.toolFunctionDigest
            && !EnvelopeMatches(idx, idx.toolFunctions[k], op.requestBasis)
            && (forall i :: 0 <= i < k && idx.toolFunctions[i].toolFunctionDigest == rec.toolFunctionDigest
                  ==> EnvelopeMatches(idx, idx.toolFunctions[i], op.requestBasis))
            ==> Decide(idx, op, rec) ==
                Refuse(if !HasOrigin(idx, idx.toolFunctions[k]) then IdentityAmbiguous
                       else if !OriginReadable(idx, idx.toolFunctions[k]) then UnreadableBasis
                       else EnvelopeConflict)
  {
    hide EnvelopeObjection, EnvelopeMatches, HasOrigin, OriginReadable, EnvelopeCheckFrom;
    UnseenIsNotFound(idx.receipts, op.requestID);
    if op.requestBasis.Basis? && k < |idx.toolFunctions| {
      forall i | 0 <= i <= k
        ensures EnvelopeObjection(idx, idx.toolFunctions[i], op.requestBasis).None?
                <==> EnvelopeMatches(idx, idx.toolFunctions[i], op.requestBasis)
      {
        ObjectionMeans(idx, idx.toolFunctions[i], op.requestBasis);
      }
      ObjectionMeans(idx, idx.toolFunctions[k], op.requestBasis);
      if idx.toolFunctions[k].toolFunctionDigest == rec.toolFunctionDigest
         && !EnvelopeMatches(idx, idx.toolFunctions[k], op.requestBasis)
         && (forall i :: 0 <= i < k && idx.toolFunctions[i].toolFunctionDigest == rec.toolFunctionDigest
               ==> EnvelopeMatches(idx, idx.toolFunctions[i], op.requestBasis)) {
        FirstObjectionDecides(idx, op.requestBasis, rec.toolFunctionDigest, 0, k);
      }
    }
  }

  lemma {:induction false} FirstObjectionDecides(idx: Index, basis: RequestBasis, digest: string, from: nat, k: nat)
    requires basis.Basis? && from <= k < |idx.toolFunctions|
    requires idx.toolFunctions[k].toolFunctionDigest == digest
    requires EnvelopeObjection(idx, idx.toolFunctions[k], basis).Some?
    requires forall i :: from <= i < k && idx.toolFunctions[i].toolFunctionDigest == digest
               ==> EnvelopeObjection(idx, idx.toolFunctions[i], basis).None?
    ensures EnvelopeCheckFrom(idx, basis, digest, from) == EnvelopeObjection(idx, idx.toolFunctions[k], basis)
    decreases k - from
  {
    hide EnvelopeObjection;
    if from < k { FirstObjectionDecides(idx, basis, digest, from + 1, k); }
  }

  // ── what a success leaves on file ───────────────────────────────────────────

  /** A reuse leaves one receipt: the request's own identity and time, against the record as it is. */
  lemma ReuseLeaves(idx: Index, op: Operation, rec: RegisteredToolFunction,
                    rev: Option<PresentationRevision>, now: nat)
    requires Decide(idx, op, rec).Reuse?
    ensures var d := Decide(idx, op, rec);
            var after := Add(idx, AdditionOf(d, op, rec, rev, now));
            && d.existing in idx.toolFunctions && d.existing.casHash == rec.casHash
            && Stored(d, op, rec, now) == d.existing
            && after == idx.(receipts := idx.receipts + [
                 Receipt(requestID := op.requestID,
                         casHash := rec.casHash,
                         toolFunctionDigest := d.existing.toolFunctionDigest,
                         presentationRevisionID := d.existing.presentationRevisionID,
                         canonicalizationVersion := op.canonicalizationVersion,
                         requestFingerprint := op.requestFingerprint,
                         requestBasis := op.requestBasis,
                         createdAt := now)])
  {
  }

  /** Every unset field has its default and every set one is kept. */
  predicate IsCompletion(f: RegisteredToolFunction, rec: RegisteredToolFunction, op: Operation, now: nat) {
    && f.casHash == rec.casHash
    && f.toolFunctionDigest == rec.toolFunctionDigest
    && f.functionImageDigest == rec.functionImageDigest
    && f.baseToolSpecDigest == rec.baseToolSpecDigest
    && f.presentationRevisionID == rec.presentationRevisionID
    && f.integrityHealth == rec.integrityHealth
    && (rec.requestID != "" ==> f.requestID == rec.requestID)
    && (rec.requestID == "" ==> f.requestID == op.requestID)
    && (rec.canonicalizationVersion != "" ==> f.canonicalizationVersion == rec.canonicalizationVersion)
    && (rec.canonicalizationVersion == "" ==> f.canonicalizationVersion == op.canonicalizationVersion)
    && (rec.artifactKind != "" ==> f.artifactKind == rec.artifactKind)
    && (rec.artifactKind == "" ==> f.artifactKind == "tool_function")
    && (rec.lifecyclePhase != UnsetPhase ==> f.lifecyclePhase == rec.lifecyclePhase)
    && (rec.lifecyclePhase == UnsetPhase ==> f.lifecyclePhase == PhaseActive)
    && (rec.registeredAt != 0 ==> f.registeredAt == rec.registeredAt)
    && (rec.registeredAt == 0 ==> f.registeredAt == now)
    && (rec.lifecycleUpdatedAt != 0 ==> f.lifecycleUpdatedAt == rec.lifecycleUpdatedAt)
    && (rec.lifecycleUpdatedAt == 0 ==> f.lifecycleUpdatedAt == now)
  }

  predicate RevisionIsNew(idx: Index, rev: Option<PresentationRevision>) {
    && rev.Some? && rev.value.revisionID != ""
    && forall i :: 0 <= i < |idx.revisions| ==> idx.revisions[i].revisionID != rev.value.revisionID
  }

  /** A creation leaves the completed record, its receipt, and its revision unless one with that id is there. */
  lemma CreationLeaves(idx: Index, op: Operation, rec: RegisteredToolFunction,
                       rev: Option<PresentationRevision>, now: nat)
    ensures var f := Stored(Create, op, rec, now);
            var after := Add(idx, AdditionOf(Create, op, rec, rev, now));
            && IsCompletion(f, rec, op, now)
            && after.toolFunctions == idx.toolFunctions + [f]
            && after.receipts == idx.receipts + [
                 Receipt(requestID := op.requestID,
                         casHash := f.casHash,
                         toolFunctionDigest := f.toolFunctionDigest,
                         presentationRevisionID := f.presentationRevisionID,
                         canonicalizationVersion := op.canonicalizationVersion,
                         requestFingerprint := op.requestFingerprint,
                         requestBasis := op.requestBasis,
                         createdAt := now)]
            && (!RevisionIsNew(idx, rev) ==> after.revisions == idx.revisions)
            && (RevisionIsNew(idx, rev) ==> after.revisions == idx.revisions + [
                 PresentationRevision(revisionID := rev.value.revisionID,
                                      casHash := rev.value.casHash,
                                      presentationJSON := rev.value.presentationJSON,
                                      createdAt := if rev.value.createdAt == 0 then now else rev.value.createdAt)])
            && after.entries == idx.entries && after.imageRecords == idx.imageRecords
            && after.schemaVersion == idx.schemaVersion
  {
  }

  /**
   The same content under a second label is not a reuse: a request whose casHash, policy and hints are those of a
   record on file, but whose fingerprint is not, is refused as ambiguous.
   */
  lemma SecondLabelIsAmbiguous(fingerprint: string)
    requires fingerprint != ""
    ensures var basis := Basis(None, None, "label A");
            var one := Operation("r1", "w2-set-v1", "f1", basis);
            var two := Operation("r2", "w2-set-v1", fingerprint, basis);
            var rec := RegisteredToolFunction("c1", "d1", "", "", "", "", "", "", UnsetPhase, HealthPartial, 0, 0);
            var idx := Add(EMPTY_INDEX, AdditionOf(Create, one, rec, None, 1));
            && Decide(EMPTY_INDEX, one, rec) == Create
            && two.Complete()
            && (fingerprint == "f1" ==> Decide(idx, two, rec) == Reuse(Completed(rec, one, 1)))
            && (fingerprint != "f1" ==> Decide(idx, two, rec) == Refuse(IdentityAmbiguous))
  {
    var basis := Basis(None, None, "label A");
    var one := Operation("r1", "w2-set-v1", "f1", basis);
    var two := Operation("r2", "w2-set-v1", fingerprint, basis);
    var rec := RegisteredToolFunction("c1", "d1", "", "", "", "", "", "", UnsetPhase, HealthPartial, 0, 0);
    var idx := Add(EMPTY_INDEX, AdditionOf(Create, one, rec, None, 1));
    assert idx.receipts == [ReceiptOf(one, Completed(rec, one, 1), 1)];
    assert idx.toolFunctions == [Completed(rec, one, 1)];
    assert "r1"[1] != "r2"[1];
    assert FindReceipt(idx.receipts, "r1") == Some(0);
    assert FindReceipt(idx.receipts, "r2") == None;
    assert FindFunction(idx.toolFunctions, "c1") == Some(0);
  }
}
