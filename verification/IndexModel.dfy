/**
 The durable artifact index: the records it holds, the file it lives in, and the ordinary
 (non-registration) writes a Store applies to its in-memory copy.

 Times are naturals; 0 is Go's zero time. A file is identified with the index it decodes to,
 which is what makes a SHA-256 generation comparison an equality of contents.
 */
module IndexModel {
  import opened Wrappers

  const SCHEMA_VERSION: int := 7
  const KIND_TOOL_FUNCTION := "tool_function"

  datatype LifecyclePhase = UnsetPhase | PhasePending | PhaseActive | PhaseRetracted | PhaseDeleted
  datatype IntegrityHealth = HealthPartial | HealthHealthy | HealthMissing | HealthOther(name: string)

  /** A legacy tool or data entry, keyed by casHash. */
  datatype Entry = Entry(
    casHash: string,
    lifecyclePhase: LifecyclePhase,
    integrityHealth: IntegrityHealth,
    registeredAt: nat,
    lifecycleUpdatedAt: nat,
    healthCheckedAt: nat)

  datatype ToolImageRecord = ToolImageRecord(
    imageDigest: string,
    imageRef: string,
    buildID: string,
    pushedAt: nat)

  /** A runnable ToolFunction, keyed by casHash. */
  datatype RegisteredToolFunction = RegisteredToolFunction(
    casHash: string,
    toolFunctionDigest: string,
    functionImageDigest: string,
    baseToolSpecDigest: string,
    artifactKind: string,
    presentationRevisionID: string,
    requestID: string,
    canonicalizationVersion: string,
    lifecyclePhase: LifecyclePhase,
    integrityHealth: IntegrityHealth,
    registeredAt: nat,
    lifecycleUpdatedAt: nat)

  datatype PresentationRevision = PresentationRevision(
    revisionID: string,
    casHash: string,
    presentationJSON: string,
    createdAt: nat)

  /**
   The canonical request body a receipt keeps. Only the two digest-out envelope fields are ever
   read back out of it; everything else is carried along verbatim.
   */
  datatype RequestBasis =
    | NoBasis
    | GarbledBasis(text: string)
    | Basis(validationPolicy: Option<string>, environmentHints: Option<string>, rest: string)

  /** The operation receipt of one registration request, keyed by requestID. */
  datatype Receipt = Receipt(
    requestID: string,
    casHash: string,
    toolFunctionDigest: string,
    presentationRevisionID: string,
    canonicalizationVersion: string,
    requestFingerprint: string,
    requestBasis: RequestBasis,
    createdAt: nat)
  {
    /** False for a receipt written before versioned writes (UNKNOWN_LEGACY). */
    predicate BasisKnown() {
      canonicalizationVersion != "" && requestFingerprint != "" && requestBasis != NoBasis
    }
  }

  datatype Index = Index(
    schemaVersion: int,
    entries: seq<Entry>,
    imageRecords: seq<ToolImageRecord>,
    toolFunctions: seq<RegisteredToolFunction>,
    revisions: seq<PresentationRevision>,
    receipts: seq<Receipt>)

  const EMPTY_INDEX := Index(SCHEMA_VERSION, [], [], [], [], [])

  function Stamp(idx: Index): Index {
    idx.(schemaVersion := SCHEMA_VERSION)
  }

  /** What the index path names on disk. */
  datatype Content = Absent | Unparsable(bytes: string) | File(index: Index)

  /** A content that load() accepts. */
  predicate Loadable(c: Content) {
    c.Absent? || (c.File? && c.index.schemaVersion <= SCHEMA_VERSION)
  }

  /** The index a content stands for; an absent file stands for the empty index. */
  function Base(c: Content): Index {
    if c.File? then c.index else EMPTY_INDEX
  }

  // ── the ToolFunction sections ───────────────────────────────────────────────

  /** The three sections that only registrations write. */
  predicate SameToolFunctions(a: Index, b: Index) {
    a.toolFunctions == b.toolFunctions && a.revisions == b.revisions && a.receipts == b.receipts
  }

  /** Each ToolFunction section of `a` is a prefix of the same section of `b`. */
  predicate ToolFunctionsPrefix(a: Index, b: Index) {
    a.toolFunctions <= b.toolFunctions && a.revisions <= b.revisions && a.receipts <= b.receipts
  }

  // ── ordinary writes ─────────────────────────────────────────────────────────

  /** A Store write outside RegisterToolFunctionAtomic, with the clock value it observed. */
  datatype Write =
    | AppendEntry(entry: Entry, now: nat)
    | SetLifecyclePhase(casHash: string, phase: LifecyclePhase, now: nat)
    | CompareAndSetIntegrityHealth(casHash: string, expected: IntegrityHealth, health: IntegrityHealth, now: nat)
    | AppendToolImageRecord(image: ToolImageRecord, now: nat)

  function FindEntry(entries: seq<Entry>, casHash: string): (r: Option<nat>)
    ensures r.Some? ==> r.value < |entries| && entries[r.value].casHash == casHash
    ensures r.Some? ==> forall i :: 0 <= i < r.value ==> entries[i].casHash != casHash
    ensures r.None? ==> forall i :: 0 <= i < |entries| ==> entries[i].casHash != casHash
  {
    if entries == [] then None
    else if entries[0].casHash == casHash then Some(0)
    else
      match FindEntry(entries[1..], casHash)
      case None => None
      case Some(i) => Some(i + 1)
  }

  /** The lifecycle edges of section 4.4 of the platform design; Active never goes straight to Deleted. */
  predicate LifecycleEdge(from: LifecyclePhase, to: LifecyclePhase) {
    match from
    case PhasePending => to == PhaseActive
    case PhaseActive => to == PhaseRetracted
    case PhaseRetracted => to == PhaseActive || to == PhaseDeleted
    case _ => false
  }

  /** True when the write passes its own checks and so mutates memory and goes on to save. */
  predicate Accepts(idx: Index, w: Write) {
    match w
    case AppendEntry(e, _) =>
      e.casHash != "" && FindEntry(idx.entries, e.casHash).None?
    case SetLifecyclePhase(cas, phase, _) =>
      var at := FindEntry(idx.entries, cas);
      at.Some? && LifecycleEdge(idx.entries[at.value].lifecyclePhase, phase)
    case CompareAndSetIntegrityHealth(cas, expected, _, _) =>
      var at := FindEntry(idx.entries, cas);
      at.Some? && idx.entries[at.value].integrityHealth == expected
    case AppendToolImageRecord(r, _) =>
      r.imageDigest != "" &&
      forall i :: 0 <= i < |idx.imageRecords| ==>
        !(idx.imageRecords[i].imageDigest == r.imageDigest && idx.imageRecords[i].buildID == r.buildID)
  }

  function OrNow(t: nat, now: nat): nat {
    if t == 0 then now else t
  }

  /** The memory mutation of a write; a write that is not accepted changes nothing. */
  function Mutate(idx: Index, w: Write): Index {
    if !Accepts(idx, w) then idx else
    match w
    case AppendEntry(e, now) =>
      idx.(entries := idx.entries + [e.(
        registeredAt := OrNow(e.registeredAt, now),
        lifecycleUpdatedAt := OrNow(e.lifecycleUpdatedAt, now),
        healthCheckedAt := OrNow(e.healthCheckedAt, now))])
    case SetLifecyclePhase(cas, phase, now) =>
      var at := FindEntry(idx.entries, cas).value;
      idx.(entries := idx.entries[at := idx.entries[at].(lifecyclePhase := phase, lifecycleUpdatedAt := now)])
    case CompareAndSetIntegrityHealth(cas, _, health, now) =>
      var at := FindEntry(idx.entries, cas).value;
      idx.(entries := idx.entries[at := idx.entries[at].(integrityHealth := health, healthCheckedAt := now)])
    case AppendToolImageRecord(r, now) =>
      idx.(imageRecords := idx.imageRecords + [r.(pushedAt := OrNow(r.pushedAt, now))])
  }

  function MutateAll(idx: Index, ws: seq<Write>): Index
    decreases |ws|
  {
    if ws == [] then idx else Mutate(MutateAll(idx, ws[..|ws| - 1]), ws[|ws| - 1])
  }

  lemma {:induction false} MutateAllKeepsToolFunctions(idx: Index, ws: seq<Write>)
    ensures SameToolFunctions(idx, MutateAll(idx, ws))
    ensures MutateAll(idx, ws).schemaVersion == idx.schemaVersion
    decreases |ws|
  {
    if ws != [] {
      MutateAllKeepsToolFunctions(idx, ws[..|ws| - 1]);
    }
  }

  /** Ordinary writes commute with the schema stamp and with registration appends. */
  lemma {:induction false} MutateAllStamp(idx: Index, ws: seq<Write>)
    ensures MutateAll(Stamp(idx), ws) == Stamp(MutateAll(idx, ws))
    decreases |ws|
  {
    if ws != [] {
      MutateAllStamp(idx, ws[..|ws| - 1]);
    }
  }
}
