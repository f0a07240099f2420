/**
 Certification: what evidence certifies an image, how intake writes certifications and catalog entries,
 and the startup pass that retracts what the stored evidence no longer proves.
 Times are naturals; 0 is Go's zero time.
 */
module Certification {
  import opened SharedFile
  import opened Wrappers

  const STAGE_L5A := "L5A"
  const STAGE_L5B := "L5B"
  const SUCCEEDED := "succeeded"
  const BLOCKED := "blocked"

  datatype Contract = Contract(allOutputsPresent: bool, result: string)

  datatype Check = Check(
    checkId: string,
    imageDigest: string,
    toolSpecDigest: string,
    platform: string,
    toolName: string,
    version: string,
    stage: string,
    terminal: bool,
    validationStatus: string,
    validationHash: string,
    contract: Option<Contract>)

  datatype Scan = Scan(
    scanId: string,
    imageDigest: string,
    stage: string,
    terminal: bool,
    policyResult: string,
    scannedAt: nat)

  datatype Promotion = Active | Superseded | Retracted

  datatype Certified = Certified(
    imageDigest: string,
    toolSpecDigest: string,
    platform: string,
    toolName: string,
    version: string,
    casHash: string,
    promotion: Promotion,
    certifiedAt: nat,
    checkId: string,
    scanId: string)

  datatype CatalogEntry = CatalogEntry(
    casHash: string,
    toolName: string,
    version: string,
    stableRef: string,
    imageDigest: string,
    imageRef: string,
    displayLabel: string,
    promotion: Promotion,
    certifiedAt: nat,
    validationHash: string)

  /** The stored records certification reads. */
  datatype Evidence = Evidence(checks: seq<Check>, scans: seq<Scan>)

  datatype Records = Records(evidence: Evidence, certs: seq<Certified>, catalog: seq<CatalogEntry>)

  /** What the other index sections say about an image at the time: its casHash and its image reference. */
  datatype Lookups = Lookups(casHash: string -> Option<string>, imageRef: string -> Option<string>)

  // ── admission ───────────────────────────────────────────────────────────────

  predicate ContractPassed(result: string) {
    result == "pass" || result == "passed"
  }

  /** evidenceIneligibility: why a check is not admissible, or "". */
  function Ineligibility(c: Check): string {
    if c.validationStatus != SUCCEEDED then "check not succeeded"
    else if c.stage != STAGE_L5A then "check is not an L5-a functional validation record"
    else if c.validationHash == "" then "no validation evidence hash"
    else if c.contract.None? || !c.contract.value.allOutputsPresent || !ContractPassed(c.contract.value.result)
    then "declared outputs not observed"
    else ""
  }

  predicate Admissible(c: Check) {
    Ineligibility(c) == ""
  }

  predicate CertifiesOnCheck(c: Check) {
    Admissible(c) && c.terminal
  }

  predicate TerminalL5B(s: Scan) {
    s.terminal && s.stage == STAGE_L5B
  }

  function GetCheck(cs: seq<Check>, id: string): (r: Option<Check>)
    ensures r.Some? ==> r.value in cs && r.value.checkId == id
  {
    if cs == [] then None else if cs[0].checkId == id then Some(cs[0]) else GetCheck(cs[1..], id)
  }

  function GetScan(ss: seq<Scan>, id: string): (r: Option<Scan>)
    ensures r.Some? ==> r.value in ss && r.value.scanId == id
  {
    if ss == [] then None else if ss[0].scanId == id then Some(ss[0]) else GetScan(ss[1..], id)
  }

  /** unprovenReason: why a certification cannot be re-proven from its stored driving records, or "". */
  function UnprovenReason(ev: Evidence, c: Certified): string {
    if c.checkId == "" then "no driving check record"
    else
      match GetCheck(ev.checks, c.checkId)
      case None => "driving check record not found"
      case Some(check) =>
        if !Admissible(check) then Ineligibility(check)
        else if check.terminal then ""
        else if c.scanId != "" && GetScan(ev.scans, c.scanId).Some? && TerminalL5B(GetScan(ev.scans, c.scanId).value)
        then "" else "non-terminal check without a terminal L5-b scan"
  }

  predicate Proven(ev: Evidence, c: Certified) {
    UnprovenReason(ev, c) == ""
  }

  // ── keys and upserts ────────────────────────────────────────────────────────

  datatype Key = Key(imageDigest: string, toolSpecDigest: string, platform: string)

  function KeyOf(c: Certified): Key {
    Key(c.imageDigest, c.toolSpecDigest, c.platform)
  }

  predicate Keyed(k: Key) {
    k.toolSpecDigest != "" && k.platform != ""
  }

  /** sameCertifiedToolKey */
  predicate SameKey(a: Key, b: Key) {
    if Keyed(a) && Keyed(b) then a.toolSpecDigest == b.toolSpecDigest && a.platform == b.platform
    else a.imageDigest == b.imageDigest
  }

  function FindKey(certs: seq<Certified>, k: Key): (i: Option<nat>)
    ensures i.Some? ==> i.value < |certs| && SameKey(KeyOf(certs[i.value]), k)
    ensures i.Some? ==> forall j :: 0 <= j < i.value ==> !SameKey(KeyOf(certs[j]), k)
    ensures i.None? ==> forall j :: 0 <= j < |certs| ==> !SameKey(KeyOf(certs[j]), k)
  {
    if certs == [] then None
    else if SameKey(KeyOf(certs[0]), k) then Some(0)
    else
      match FindKey(certs[1..], k)
      case None => None
      case Some(i) => Some(i + 1)
  }

  function OrNow(at: nat, now: nat): nat {
    if at == 0 then now else at
  }

  function Stamped(c: Certified, now: nat): Certified {
    c.(certifiedAt := OrNow(c.certifiedAt, now))
  }

  function Upsert(certs: seq<Certified>, c: Certified, now: nat): seq<Certified> {
    match FindKey(certs, KeyOf(c))
    case Some(i) => certs[i := Stamped(c, now)]
    case None => certs + [Stamped(c, now)]
  }

  function FindEntry(es: seq<CatalogEntry>, cas: string): (i: Option<nat>)
    ensures i.Some? ==> i.value < |es| && es[i.value].casHash == cas
    ensures i.Some? ==> forall j :: 0 <= j < i.value ==> es[j].casHash != cas
    ensures i.None? ==> forall j :: 0 <= j < |es| ==> es[j].casHash != cas
  {
    if es == [] then None
    else if es[0].casHash == cas then Some(0)
    else
      match FindEntry(es[1..], cas)
      case None => None
      case Some(i) => Some(i + 1)
  }

  function StampedEntry(e: CatalogEntry, now: nat): CatalogEntry {
    e.(certifiedAt := OrNow(e.certifiedAt, now))
  }

  function UpsertEntry(es: seq<CatalogEntry>, e: CatalogEntry, now: nat): seq<CatalogEntry> {
    match FindEntry(es, e.casHash)
    case Some(i) => es[i := StampedEntry(e, now)]
    case None => es + [StampedEntry(e, now)]
  }

  datatype Error = EmptyKey | SaveFailed | MissingName | MissingCheck

  /** The index sections certification writes, updated in place, and the file all Stores write. */
  class RecordStore {
    var checks: seq<Check>
    var scans: seq<Scan>
    var certs: seq<Certified>
    var catalog: seq<CatalogEntry>
    var seen: Records
    var file: Records
    ghost var exposed: set<Records>

    ghost function Value(): Host<Records>
      reads this
    {
      Host(Records(Evidence(checks, scans), certs, catalog), seen, file, exposed)
    }

    constructor (stored: Records)
      ensures Value() == Start(stored)
    {
      checks, scans := stored.evidence.checks, stored.evidence.scans;
      certs, catalog := stored.certs, stored.catalog;
      seen, file, exposed := stored, stored, {stored};
    }

    method Reload()
      modifies this
      ensures Value() == Reloaded(old(Value()))
    {
      checks, scans, certs, catalog := file.evidence.checks, file.evidence.scans, file.certs, file.catalog;
      seen := file;
    }

    method Save(w: Writing<Records>) returns (error: Option<Error>)
      modifies this
      ensures var s := Written(old(Value()), old(Value()).mem, w);
              Value() == s.host && error == if s.ok then None else Some(SaveFailed)
    {
      if w.theirs.Some? {
        file := w.theirs.value.to;
        exposed := if w.theirs.value.synced then {file} else exposed + {file};
      }
      error := Some(SaveFailed);
      if w.save == Refused {
        return;
      }
      if seen != file {
        Reload();
        return;
      }
      file := Records(Evidence(checks, scans), certs, catalog);
      seen := file;
      if w.save == Synced {
        exposed := {file};
        error := None;
      } else {
        exposed := exposed + {file};
      }
    }

    method UpsertCertifiedToolImageRecord(c: Certified, now: nat, w: Writing<Records>) returns (error: Option<Error>)
      modifies this
      ensures var was := old(Value());
              if c.imageDigest == "" then Value() == was && error == Some(EmptyKey)
              else var s := Written(was, was.mem.(certs := Upsert(was.mem.certs, c, now)), w);
                   Value() == s.host && error == if s.ok then None else Some(SaveFailed)
    {
      if c.imageDigest == "" {
        return Some(EmptyKey);
      }
      var r := c;
      if r.certifiedAt == 0 { r := r.(certifiedAt := now); }
      var i := 0;
      while i < |certs|
        invariant 0 <= i <= |certs| && Value() == old(Value())
        invariant forall j :: 0 <= j < i ==> !SameKey(KeyOf(certs[j]), KeyOf(c))
      {
        if SameKey(KeyOf(certs[i]), KeyOf(r)) {
          certs := certs[i := r];
          error := Save(w);
          return;
        }
        i := i + 1;
      }
      certs := certs + [r];
      error := Save(w);
    }

    method UpsertToolFunctionCatalogEntry(e: CatalogEntry, now: nat, w: Writing<Records>) returns (error: Option<Error>)
      modifies this
      ensures var was := old(Value());
              if e.casHash == "" then Value() == was && error == Some(EmptyKey)
              else var s := Written(was, was.mem.(catalog := UpsertEntry(was.mem.catalog, e, now)), w);
                   Value() == s.host && error == if s.ok then None else Some(SaveFailed)
    {
      if e.casHash == "" {
        return Some(EmptyKey);
      }
      var r := e;
      if r.certifiedAt == 0 { r := r.(certifiedAt := now); }
      var i := 0;
      while i < |catalog|
        invariant 0 <= i <= |catalog| && Value() == old(Value())
        invariant forall j :: 0 <= j < i ==> catalog[j].casHash != e.casHash
      {
        if catalog[i].casHash == r.casHash {
          catalog := catalog[i := r];
          error := Save(w);
          return;
        }
        i := i + 1;
      }
      catalog := catalog + [r];
      error := Save(w);
    }

    method ListActiveCertifications() returns (out: seq<Certified>)
      ensures out == ActiveCerts(certs)
    {
      hide ActiveCerts;
      out := [];
      var i := 0;
      assert certs[0..] == certs && [] + ActiveCerts(certs) == ActiveCerts(certs);
      while i < |certs|
        invariant 0 <= i <= |certs| && out + ActiveCerts(certs[i..]) == ActiveCerts(certs)
      {
        ActivesFrom(certs, i);
        if certs[i].promotion == Active { out := out + [certs[i]]; }
        i := i + 1;
      }
      NoActives();
      assert certs[i..] == [] && out + [] == out;
    }

    method ListActiveCatalogEntries() returns (out: seq<CatalogEntry>)
      ensures out == ActiveEntries(catalog)
    {
      hide ActiveEntries;
      out := [];
      var i := 0;
      assert catalog[0..] == catalog && [] + ActiveEntries(catalog) == ActiveEntries(catalog);
      while i < |catalog|
        invariant 0 <= i <= |catalog| && out + ActiveEntries(catalog[i..]) == ActiveEntries(catalog)
      {
        ActiveEntriesFrom(catalog, i);
        if catalog[i].promotion == Active { out := out + [catalog[i]]; }
        i := i + 1;
      }
      NoActiveEntries();
      assert catalog[i..] == [] && out + [] == out;
    }
  }

  function ActiveCerts(cs: seq<Certified>): seq<Certified> {
    if cs == [] then [] else (if cs[0].promotion == Active then [cs[0]] else []) + ActiveCerts(cs[1..])
  }

  function ActiveEntries(es: seq<CatalogEntry>): seq<CatalogEntry> {
    if es == [] then [] else (if es[0].promotion == Active then [es[0]] else []) + ActiveEntries(es[1..])
  }

  lemma ActivesFrom(certs: seq<Certified>, k: nat)
    requires k < |certs|
    ensures var rest := ActiveCerts(certs[k + 1..]);
            ActiveCerts(certs[k..]) == if certs[k].promotion == Active then [certs[k]] + rest else rest
  {
    assert certs[k..][0] == certs[k] && certs[k..][1..] == certs[k + 1..];
    assert [] + ActiveCerts(certs[k + 1..]) == ActiveCerts(certs[k + 1..]);
  }

  lemma NoActives()
    ensures ActiveCerts([]) == []
  {
  }

  lemma ActiveEntriesFrom(es: seq<CatalogEntry>, k: nat)
    requires k < |es|
    ensures var rest := ActiveEntries(es[k + 1..]);
            ActiveEntries(es[k..]) == if es[k].promotion == Active then [es[k]] + rest else rest
  {
    assert es[k..][0] == es[k] && es[k..][1..] == es[k + 1..];
    assert [] + ActiveEntries(es[k + 1..]) == ActiveEntries(es[k + 1..]);
  }

  lemma NoActiveEntries()
    ensures ActiveEntries([]) == []
  {
  }

  // ── the startup pass ────────────────────────────────────────────────────────

  /** One upsert per unproven certification of the snapshot, in order. */
  function RetractCerts(ev: Evidence, certs: seq<Certified>, todo: seq<Certified>, now: nat): seq<Certified>
    decreases |todo|
  {
    if todo == [] then certs
    else
      var next := if Proven(ev, todo[0]) then certs else Upsert(certs, todo[0].(promotion := Retracted), now);
      RetractCerts(ev, next, todo[1..], now)
  }

  /** The casHashes and images that lost a certification. */
  function LostCas(ev: Evidence, snapshot: seq<Certified>): set<string> {
    set c | c in snapshot && !Proven(ev, c) && c.casHash != "" :: c.casHash
  }

  function LostImages(ev: Evidence, snapshot: seq<Certified>): set<string> {
    set c | c in snapshot && !Proven(ev, c) :: c.imageDigest
  }

  /** The first provable certification of the snapshot with this casHash. */
  function Survivor(ev: Evidence, snapshot: seq<Certified>, cas: string): (r: Option<Certified>)
    ensures r.Some? ==> r.value in snapshot && Proven(ev, r.value) && r.value.casHash == cas != ""
    ensures r.None? ==> forall c :: c in snapshot && Proven(ev, c) && c.casHash != "" ==> c.casHash != cas
  {
    if snapshot == [] then None
    else if Proven(ev, snapshot[0]) && snapshot[0].casHash == cas && cas != "" then Some(snapshot[0])
    else Survivor(ev, snapshot[1..], cas)
  }

  function StableRef(toolName: string, version: string): string {
    toolName + "@" + version
  }

  function Rebuilt(e: CatalogEntry, s: Certified, check: Check, look: Lookups): CatalogEntry {
    e.(toolName := s.toolName, version := s.version, stableRef := StableRef(s.toolName, s.version),
       imageDigest := s.imageDigest,
       imageRef := if look.imageRef(s.imageDigest).Some? then look.imageRef(s.imageDigest).value else "",
       certifiedAt := s.certifiedAt, validationHash := check.validationHash)
  }

  /** What the pass does with an ACTIVE catalog entry. */
  function Kept(ev: Evidence, snapshot: seq<Certified>, look: Lookups, e: CatalogEntry): Option<CatalogEntry> {
    if e.casHash !in LostCas(ev, snapshot) then None
    else
      match Survivor(ev, snapshot, e.casHash)
      case None => Some(e.(promotion := Retracted))
      case Some(s) =>
        if e.imageDigest !in LostImages(ev, snapshot) then None
        else
          match GetCheck(ev.checks, s.checkId)
          case None => None
          case Some(check) => Some(Rebuilt(e, s, check, look))
  }

  function RetractEntries(ev: Evidence, snapshot: seq<Certified>, look: Lookups, catalog: seq<CatalogEntry>,
                          todo: seq<CatalogEntry>, now: nat): seq<CatalogEntry>
    decreases |todo|
  {
    if todo == [] then catalog
    else
      var k := Kept(ev, snapshot, look, todo[0]);
      var next := if k.Some? then UpsertEntry(catalog, k.value, now) else catalog;
      RetractEntries(ev, snapshot, look, next, todo[1..], now)
  }

  function Swept(st: Records, look: Lookups, now: nat): Records {
    var snapshot := ActiveCerts(st.certs);
    Records(st.evidence, RetractCerts(st.evidence, st.certs, snapshot, now),
            RetractEntries(st.evidence, snapshot, look, st.catalog, ActiveEntries(st.catalog), now))
  }

  function CountUnproven(ev: Evidence, s: seq<Certified>): nat {
    if s == [] then 0 else (if Proven(ev, s[0]) then 0 else 1) + CountUnproven(ev, s[1..])
  }

  /** Where a pass without an error leaves memory and file: it saved its last change, or it had none. */
  function Passed(h: Host<Records>, look: Lookups, now: nat): Host<Records> {
    if CountUnproven(h.mem.evidence, ActiveCerts(h.mem.certs)) == 0 then h else Start(Swept(h.mem, look, now))
  }

  /** keepCatalogForSurvivor. */
  method KeepCatalogForSurvivor(store: RecordStore, entry: CatalogEntry, survivor: Certified, pointsAtRetracted: bool,
                                look: Lookups, now: nat, w: Writing<Records>)
    returns (error: Option<Error>)
    modifies store
    ensures var was := old(store.Value());
            var check := GetCheck(was.mem.evidence.checks, survivor.checkId);
            error.None? ==>
              if !pointsAtRetracted then store.Value() == was
              else check.Some? && store.Value() == Start(was.mem.(
                     catalog := UpsertEntry(was.mem.catalog, Rebuilt(entry, survivor, check.value, look), now)))
  {
    hide UpsertEntry;
    if !pointsAtRetracted {
      return None;
    }
    var check := GetCheck(store.checks, survivor.checkId);
    if check.None? {
      return Some(MissingCheck);
    }
    var e := entry;
    e := e.(toolName := survivor.toolName, version := survivor.version);
    e := e.(stableRef := StableRef(survivor.toolName, survivor.version));
    e := e.(imageDigest := survivor.imageDigest, imageRef := "");
    var image := look.imageRef(survivor.imageDigest);
    if image.Some? { e := e.(imageRef := image.value); }
    e := e.(certifiedAt := survivor.certifiedAt, validationHash := check.value.validationHash);
    error := store.UpsertToolFunctionCatalogEntry(e, now, w);
  }

  /** The first half: retract what is unproven, and remember what that touches and what survives. */
  method RetractSnapshot(store: RecordStore, snapshot: seq<Certified>, now: nat, writing: nat -> Writing<Records>)
    returns (n: nat, retractedCas: set<string>, retractedImages: set<string>,
             survivors: map<string, Certified>, error: Option<Error>)
    modifies store
    ensures var was := old(store.Value()); var ev := was.mem.evidence;
            error.None? ==>
              && store.Value().mem == was.mem.(certs := RetractCerts(ev, was.mem.certs, snapshot, now))
              && store.Value() == (if n == 0 then was else Start(store.Value().mem))
              && n == CountUnproven(ev, snapshot)
              && Tallied(ev, snapshot, retractedCas, retractedImages, survivors)
  {
    hide UnprovenReason, Upsert, Tallied, Written;
    ghost var was := store.Value();
    ghost var ev := was.mem.evidence;
    retractedCas, retractedImages, survivors := {}, {}, map[];
    n, error := 0, None;
    var i := 0;
    assert snapshot[..0] == [] && snapshot[0..] == snapshot;
    NothingTallied(ev);
    while i < |snapshot|
      invariant 0 <= i <= |snapshot| && error.None?
      invariant store.Value().mem == was.mem.(certs := store.certs)
      invariant store.Value() == if n == 0 then was else Start(store.Value().mem)
      invariant RetractCerts(ev, store.certs, snapshot[i..], now) == RetractCerts(ev, was.mem.certs, snapshot, now)
      invariant Tallied(ev, snapshot[..i], retractedCas, retractedImages, survivors)
      invariant n + CountUnproven(ev, snapshot[i..]) == CountUnproven(ev, snapshot)
    {
      var cert := snapshot[i];
      assert snapshot[i..][0] == cert && snapshot[i..][1..] == snapshot[i + 1..];
      TallyStep(ev, snapshot, i, retractedCas, retractedImages, survivors);
      if UnprovenReason(Evidence(store.checks, store.scans), cert) == "" {
        if cert.casHash != "" && cert.casHash !in survivors {
          survivors := survivors[cert.casHash := cert];
        }
      } else {
        ghost var next := store.Value().mem.(certs := Upsert(store.certs, cert.(promotion := Retracted), now));
        WrittenIsDurable(store.Value(), next, writing(i));
        error := store.UpsertCertifiedToolImageRecord(cert.(promotion := Retracted), now, writing(i));
        if error.Some? {
          return;
        }
        if cert.casHash != "" { retractedCas := retractedCas + {cert.casHash}; }
        retractedImages := retractedImages + {cert.imageDigest};
        n := n + 1;
      }
      i := i + 1;
    }
    assert snapshot[..i] == snapshot && snapshot[i..] == [];
  }

  lemma WrittenIsDurable(h: Host<Records>, next: Records, w: Writing<Records>)
    ensures Written(h, next, w).ok ==> Written(h, next, w).host == Start(next)
  {
  }

  ghost predicate Tallied(ev: Evidence, seen: seq<Certified>, cas: set<string>, images: set<string>,
                          survivors: map<string, Certified>)
  {
    && cas == LostCas(ev, seen) && images == LostImages(ev, seen)
    && (forall k :: k in survivors ==> Survivor(ev, seen, k) == Some(survivors[k]))
    && (forall k :: k !in survivors ==> Survivor(ev, seen, k) == None)
  }

  lemma NothingTallied(ev: Evidence)
    ensures Tallied(ev, [], {}, {}, map[])
  {
  }

  lemma TallyStep(ev: Evidence, s: seq<Certified>, i: nat, cas: set<string>, images: set<string>,
                  survivors: map<string, Certified>)
    requires i < |s| && Tallied(ev, s[..i], cas, images, survivors)
    ensures var c := s[i];
            Tallied(ev, s[..i + 1],
                    if !Proven(ev, c) && c.casHash != "" then cas + {c.casHash} else cas,
                    if !Proven(ev, c) then images + {c.imageDigest} else images,
                    if Proven(ev, c) && c.casHash != "" && c.casHash !in survivors
                    then survivors[c.casHash := c] else survivors)
  {
    hide Proven, UnprovenReason, Survivor, LostCas, LostImages;
    SnapshotStep(ev, s, i);
  }

  /**
   RetractUnprovenCertifications; its saves go as writing and entryWriting say. A run without an error has done
   the whole pass and saved it; the process serves nothing after any other.
   */
  method RetractUnprovenCertifications(store: RecordStore, look: Lookups, now: nat,
                                       writing: nat -> Writing<Records>, entryWriting: nat -> Writing<Records>)
    returns (n: nat, error: Option<Error>)
    modifies store
    ensures error.None? ==> store.Value() == Passed(old(store.Value()), look, now)
    ensures error.None? ==> store.Value().mem == Swept(old(store.Value()).mem, look, now)
    ensures error.None? ==> n == CountUnproven(old(store.Value()).mem.evidence, ActiveCerts(old(store.certs)))
  {
    hide LostCas, LostImages, Survivor, UnprovenReason;
    ghost var ev := Evidence(store.checks, store.scans);
    var snapshot := store.ListActiveCertifications();
    var retractedCas: set<string>, retractedImages: set<string>, survivors: map<string, Certified>;
    n, retractedCas, retractedImages, survivors, error := RetractSnapshot(store, snapshot, now, writing);
    if error.Some? {
      return;
    }
    NoneLost(ev, snapshot);
    if retractedCas == {} {
      NothingLost(ev, snapshot, look, store.catalog, ActiveEntries(store.catalog), now);
      return;
    }
    error := RetractCatalog(store, snapshot, look, now, retractedCas, retractedImages, survivors, entryWriting);
  }

  lemma NoneLost(ev: Evidence, snapshot: seq<Certified>)
    ensures CountUnproven(ev, snapshot) == 0 ==> LostCas(ev, snapshot) == {}
  {
    hide UnprovenReason;
    NoneUnproven(ev, snapshot);
  }

  method RetractCatalog(store: RecordStore, ghost snapshot: seq<Certified>, look: Lookups, now: nat,
                        retractedCas: set<string>, retractedImages: set<string>,
                        survivors: map<string, Certified>, entryWriting: nat -> Writing<Records>)
    returns (error: Option<Error>)
    requires Tallied(Evidence(store.checks, store.scans), snapshot, retractedCas, retractedImages, survivors)
    modifies store
    ensures var was := old(store.Value());
            error.None? ==>
              && store.Value().mem == was.mem.(
                   catalog := RetractEntries(was.mem.evidence, snapshot, look, was.mem.catalog,
                                             ActiveEntries(was.mem.catalog), now))
              && (store.Value() == was || store.Value() == Start(store.Value().mem))
  {
    hide LostCas, LostImages, Survivor, UpsertEntry, Rebuilt, Written;
    ghost var was := store.Value();
    ghost var ev := was.mem.evidence;
    var entries := store.ListActiveCatalogEntries();
    error := None;
    var i := 0;
    while i < |entries|
      invariant 0 <= i <= |entries|
      invariant store.Value().mem == was.mem.(catalog := store.catalog)
      invariant store.Value() == was || store.Value() == Start(store.Value().mem)
      invariant RetractEntries(ev, snapshot, look, store.catalog, entries[i..], now)
                == RetractEntries(ev, snapshot, look, was.mem.catalog, entries, now)
      invariant error.None?
    {
      var entry := entries[i];
      assert entries[i..][0] == entry && entries[i..][1..] == entries[i + 1..];
      if entry.casHash in retractedCas {
        if entry.casHash in survivors {
          error := KeepCatalogForSurvivor(store, entry, survivors[entry.casHash], entry.imageDigest in retractedImages,
                                          look, now, entryWriting(i));
        } else {
          ghost var next := store.Value().mem.(
            catalog := UpsertEntry(store.catalog, entry.(promotion := Retracted), now));
          WrittenIsDurable(store.Value(), next, entryWriting(i));
          error := store.UpsertToolFunctionCatalogEntry(entry.(promotion := Retracted), now, entryWriting(i));
        }
        if error.Some? {
          return;
        }
      }
      i := i + 1;
    }
  }

  lemma SnapshotStep(ev: Evidence, s: seq<Certified>, i: nat)
    requires i < |s|
    ensures var c := s[i];
            && LostCas(ev, s[..i + 1])
               == LostCas(ev, s[..i]) + (if !Proven(ev, c) && c.casHash != "" then {c.casHash} else {})
            && LostImages(ev, s[..i + 1]) == LostImages(ev, s[..i]) + (if !Proven(ev, c) then {c.imageDigest} else {})
    ensures forall cas :: Survivor(ev, s[..i + 1], cas)
              == (if Survivor(ev, s[..i], cas).Some? then Survivor(ev, s[..i], cas)
                  else if Proven(ev, s[i]) && s[i].casHash == cas && cas != "" then Some(s[i]) else None)
  {
    hide Proven, UnprovenReason;
    assert s[..i + 1] == s[..i] + [s[i]];
    assert forall c :: c in s[..i + 1] <==> c in s[..i] || c == s[i];
    forall cas ensures Survivor(ev, s[..i + 1], cas)
              == (if Survivor(ev, s[..i], cas).Some? then Survivor(ev, s[..i], cas)
                  else if Proven(ev, s[i]) && s[i].casHash == cas && cas != "" then Some(s[i]) else None)
    {
      SurvivorOfAppend(ev, s[..i], s[i], cas);
    }
  }

  lemma {:induction false} SurvivorOfAppend(ev: Evidence, s: seq<Certified>, c: Certified, cas: string)
    ensures Survivor(ev, s + [c], cas)
            == (if Survivor(ev, s, cas).Some? then Survivor(ev, s, cas)
                else if Proven(ev, c) && c.casHash == cas && cas != "" then Some(c) else None)
    decreases |s|
  {
    hide Proven, UnprovenReason;
    if s == [] {
      assert s + [c] == [c];
    } else {
      SurvivorOfAppend(ev, s[1..], c, cas);
      assert (s + [c])[1..] == s[1..] + [c];
    }
  }

  lemma {:induction false} NothingLost(ev: Evidence, snapshot: seq<Certified>, look: Lookups,
                                       catalog: seq<CatalogEntry>, todo: seq<CatalogEntry>, now: nat)
    requires LostCas(ev, snapshot) == {}
    ensures RetractEntries(ev, snapshot, look, catalog, todo, now) == catalog
    decreases |todo|
  {
    hide LostCas;
    if todo != [] { NothingLost(ev, snapshot, look, catalog, todo[1..], now); }
  }

  // ── what the pass establishes ───────────────────────────────────────────────

  /** No two certifications share a key. */
  ghost predicate DistinctKeys(certs: seq<Certified>) {
    forall i, j :: 0 <= i < j < |certs| ==> !SameKey(KeyOf(certs[i]), KeyOf(certs[j]))
  }

  ghost predicate DistinctCas(es: seq<CatalogEntry>) {
    forall i, j :: 0 <= i < j < |es| ==> es[i].casHash != es[j].casHash
  }

  ghost predicate FullyKeyed(certs: seq<Certified>) {
    forall i :: 0 <= i < |certs| ==> Keyed(KeyOf(certs[i]))
  }

  ghost predicate ActiveAreProven(ev: Evidence, certs: seq<Certified>) {
    forall i :: 0 <= i < |certs| && certs[i].promotion == Active ==> Proven(ev, certs[i])
  }

  predicate Unproven(ev: Evidence, c: Certified) {
    c.promotion == Active && !Proven(ev, c)
  }

  /** Every unproven ACTIVE certification is the first one its own key finds. */
  ghost predicate UnprovenComeFirst(ev: Evidence, certs: seq<Certified>) {
    forall k :: 0 <= k < |certs| && Unproven(ev, certs[k]) ==> FindKey(certs, KeyOf(certs[k])) == Some(k)
  }

  /** Distinct keys are enough for that. */
  lemma DistinctKeysComeFirst(ev: Evidence, certs: seq<Certified>)
    requires DistinctKeys(certs)
    ensures UnprovenComeFirst(ev, certs)
  {
    hide Unproven;
    forall k | 0 <= k < |certs| && Unproven(ev, certs[k]) ensures FindKey(certs, KeyOf(certs[k])) == Some(k) {
      FindKeyIs(certs, KeyOf(certs[k]), k);
    }
  }

  lemma FindKeyIs(certs: seq<Certified>, k: Key, i: nat)
    requires i < |certs| && SameKey(KeyOf(certs[i]), k)
    requires forall j :: 0 <= j < i ==> !SameKey(KeyOf(certs[j]), k)
    ensures FindKey(certs, k) == Some(i)
  {
    var f := FindKey(certs, k);
    assert f.Some? ==> !(i < f.value);
  }

  /** Fully keyed certifications keep distinct keys under every upsert of a keyed one. */
  lemma UpsertKeepsKeysDistinct(certs: seq<Certified>, c: Certified, now: nat)
    requires FullyKeyed(certs) && DistinctKeys(certs) && Keyed(KeyOf(c))
    ensures FullyKeyed(Upsert(certs, c, now)) && DistinctKeys(Upsert(certs, c, now))
  {
    var f, next := FindKey(certs, KeyOf(c)), Upsert(certs, c, now);
    if f.Some? {
      assert SameKey(KeyOf(certs[f.value]), KeyOf(c));
      assert forall i :: 0 <= i < |next| ==> Keyed(KeyOf(next[i])) && SameKey(KeyOf(next[i]), KeyOf(certs[i]));
    } else {
      assert forall i :: 0 <= i < |certs| ==> next[i] == certs[i];
    }
  }

  /** What the pass makes of a certification, whatever the others are. */
  function Judged(ev: Evidence, c: Certified, now: nat): Certified {
    if c.promotion == Active && !Proven(ev, c) then Stamped(c.(promotion := Retracted), now) else c
  }

  /** The list once the first k certifications have been judged. */
  function Midway(ev: Evidence, certs: seq<Certified>, k: nat, now: nat): (r: seq<Certified>)
    requires k <= |certs|
    ensures |r| == |certs|
    ensures forall j :: 0 <= j < |certs| ==> r[j] == if j < k then Judged(ev, certs[j], now) else certs[j]
  {
    seq(|certs|, j requires 0 <= j < |certs| => if j < k then Judged(ev, certs[j], now) else certs[j])
  }

  /** Keys do not move while the pass hits each unproven certification itself. */
  lemma MidwayFinds(ev: Evidence, certs: seq<Certified>, k: nat, now: nat, key: Key)
    requires k <= |certs|
    ensures FindKey(Midway(ev, certs, k, now), key) == FindKey(certs, key)
  {
    hide Proven;
    var cur := Midway(ev, certs, k, now);
    assert forall j :: 0 <= j < |certs| ==> KeyOf(cur[j]) == KeyOf(certs[j]);
    var f := FindKey(certs, key);
    if f.Some? { FindKeyIs(cur, key, f.value); }
  }

  lemma MidwayStep(ev: Evidence, certs: seq<Certified>, k: nat, now: nat)
    requires k < |certs|
    requires Unproven(ev, certs[k]) ==> FindKey(certs, KeyOf(certs[k])) == Some(k)
    ensures Midway(ev, certs, k + 1, now)
            == if Unproven(ev, certs[k])
               then Upsert(Midway(ev, certs, k, now), certs[k].(promotion := Retracted), now)
               else Midway(ev, certs, k, now)
  {
    hide Proven, SameKey, Midway;
    MidwayFinds(ev, certs, k, now, KeyOf(certs[k]));
  }

  lemma {:induction false} RetractIsPointwise(ev: Evidence, certs: seq<Certified>, k: nat, now: nat)
    requires UnprovenComeFirst(ev, certs) && k <= |certs|
    ensures RetractCerts(ev, Midway(ev, certs, k, now), ActiveCerts(certs[k..]), now) == Midway(ev, certs, |certs|, now)
    decreases |certs| - k
  {
    hide UnprovenReason, Midway, Upsert, Judged, FindKey;
    if k < |certs| {
      ActivesFrom(certs, k);
      MidwayStep(ev, certs, k, now);
      RetractIsPointwise(ev, certs, k + 1, now);
      StepActives(ev, Midway(ev, certs, k, now), certs[k], ActiveCerts(certs[k + 1..]), now);
    }
  }

  lemma StepActives(ev: Evidence, cur: seq<Certified>, c: Certified, rest: seq<Certified>, now: nat)
    ensures RetractCerts(ev, cur, [c] + rest, now)
            == RetractCerts(ev, if Proven(ev, c) then cur else Upsert(cur, c.(promotion := Retracted), now), rest, now)
  {
    hide Proven, Upsert;
    assert ([c] + rest)[1..] == rest;
  }

  // ── when the pass fails ─────────────────────────────────────────────────────

  function CountBad(ev: Evidence, certs: seq<Certified>): nat {
    if certs == [] then 0
    else CountBad(ev, certs[..|certs| - 1]) + (if Unproven(ev, certs[|certs| - 1]) then 1 else 0)
  }

  lemma {:induction false} CountBadUpdate(ev: Evidence, certs: seq<Certified>, i: nat, c: Certified)
    requires i < |certs| && !Unproven(ev, c)
    ensures CountBad(ev, certs[i := c]) == CountBad(ev, certs) - (if Unproven(ev, certs[i]) then 1 else 0)
    decreases |certs|
  {
    hide Unproven;
    var n := |certs| - 1;
    if i < n {
      CountBadUpdate(ev, certs[..n], i, c);
      assert certs[i := c][..n] == certs[..n][i := c];
    } else {
      assert certs[i := c][..n] == certs[..n];
    }
  }

  /** A retraction takes away at most one unproven certification, and none if it hits another kind. */
  lemma RetractionTakesOne(ev: Evidence, certs: seq<Certified>, c: Certified, now: nat)
    requires c.promotion == Retracted
    ensures CountBad(ev, Upsert(certs, c, now)) >= CountBad(ev, certs) - 1
    ensures var f := FindKey(certs, KeyOf(c));
            f.None? || !Unproven(ev, certs[f.value]) ==> CountBad(ev, Upsert(certs, c, now)) == CountBad(ev, certs)
  {
    hide CountBad, Proven;
    var f, r := FindKey(certs, KeyOf(c)), Stamped(c, now);
    if f.Some? {
      CountBadUpdate(ev, certs, f.value, r);
    } else {
      CountBadAppend(ev, certs, r);
    }
  }

  lemma CountBadAppend(ev: Evidence, certs: seq<Certified>, c: Certified)
    ensures CountBad(ev, certs + [c]) == CountBad(ev, certs) + (if Unproven(ev, c) then 1 else 0)
  {
    hide Unproven;
    assert (certs + [c])[..|certs|] == certs;
  }

  lemma {:induction false} NotEnoughRetractions(ev: Evidence, certs: seq<Certified>, todo: seq<Certified>, now: nat)
    ensures CountBad(ev, RetractCerts(ev, certs, todo, now)) >= CountBad(ev, certs) - CountUnproven(ev, todo)
    decreases |todo|
  {
    hide CountBad, Proven, Upsert;
    if todo != [] {
      var next := if Proven(ev, todo[0]) then certs else Upsert(certs, todo[0].(promotion := Retracted), now);
      if !Proven(ev, todo[0]) { RetractionTakesOne(ev, certs, todo[0].(promotion := Retracted), now); }
      NotEnoughRetractions(ev, next, todo[1..], now);
    }
  }

  lemma {:induction false} NoneBad(ev: Evidence, certs: seq<Certified>)
    ensures CountBad(ev, certs) == 0 <==> ActiveAreProven(ev, certs)
    decreases |certs|
  {
    hide Proven;
    if certs != [] { NoneBad(ev, certs[..|certs| - 1]); }
  }

  lemma {:induction false} MidwayBad(ev: Evidence, certs: seq<Certified>, k: nat, now: nat)
    requires k <= |certs|
    ensures CountBad(ev, Midway(ev, certs, k, now)) == CountUnproven(ev, ActiveCerts(certs[k..]))
    decreases |certs| - k
  {
    hide Proven, CountBad, ActiveCerts;
    if k == |certs| {
      var cur := Midway(ev, certs, k, now);
      assert ActiveAreProven(ev, cur);
      NoneBad(ev, cur);
      NoActives();
      assert certs[k..] == [];
    } else {
      MidwayBad(ev, certs, k + 1, now);
      ActivesFrom(certs, k);
      CountFirst(ev, certs[k], ActiveCerts(certs[k + 1..]));
      MidwayUnjudged(ev, certs, k, now);
    }
  }

  lemma CountFirst(ev: Evidence, c: Certified, rest: seq<Certified>)
    ensures CountUnproven(ev, [c] + rest) == (if Proven(ev, c) then 0 else 1) + CountUnproven(ev, rest)
  {
    hide Proven;
    assert ([c] + rest)[1..] == rest;
  }

  lemma MidwayUnjudged(ev: Evidence, certs: seq<Certified>, k: nat, now: nat)
    requires k < |certs|
    ensures CountBad(ev, Midway(ev, certs, k, now))
            == CountBad(ev, Midway(ev, certs, k + 1, now)) + (if Unproven(ev, certs[k]) then 1 else 0)
  {
    hide Proven, CountBad;
    var cur := Midway(ev, certs, k, now);
    var next := Midway(ev, certs, k + 1, now);
    assert next == cur[k := Judged(ev, certs[k], now)];
    CountBadUpdate(ev, cur, k, Judged(ev, certs[k], now));
  }

  /** From the k-th certification on: the first unproven one whose key finds an earlier record spoils the pass. */
  lemma {:induction false} RestIsProvenExactly(ev: Evidence, certs: seq<Certified>, k: nat, now: nat)
    requires k <= |certs|
    ensures ActiveAreProven(ev, RetractCerts(ev, Midway(ev, certs, k, now), ActiveCerts(certs[k..]), now))
            <==> forall j :: k <= j < |certs| && Unproven(ev, certs[j]) ==> FindKey(certs, KeyOf(certs[j])) == Some(j)
    decreases |certs| - k
  {
    hide Proven, Midway, Upsert, Judged, FindKey, CountBad, ActiveAreProven, CountUnproven, ActiveCerts;
    var cur := Midway(ev, certs, k, now);
    if k == |certs| {
      assert certs[k..] == [];
      NoActives();
      AllJudged(ev, certs, now);
    } else {
      var rest := ActiveCerts(certs[k + 1..]);
      ActivesFrom(certs, k);
      StepActives(ev, cur, certs[k], rest, now);
      if Unproven(ev, certs[k]) && FindKey(certs, KeyOf(certs[k])) != Some(k) {
        MidwayFinds(ev, certs, k, now, KeyOf(certs[k]));
        EarlierIsJudged(ev, certs, k, now);
        var next := Upsert(cur, certs[k].(promotion := Retracted), now);
        RetractionTakesOne(ev, cur, certs[k].(promotion := Retracted), now);
        MidwayBad(ev, certs, k, now);
        CountFirst(ev, certs[k], rest);
        NotEnoughRetractions(ev, next, rest, now);
        NoneBad(ev, RetractCerts(ev, next, rest, now));
      } else {
        MidwayStep(ev, certs, k, now);
        RestIsProvenExactly(ev, certs, k + 1, now);
      }
    }
  }

  lemma AllJudged(ev: Evidence, certs: seq<Certified>, now: nat)
    ensures ActiveAreProven(ev, Midway(ev, certs, |certs|, now))
  {
    hide UnprovenReason;
  }

  lemma FindsAtMost(certs: seq<Certified>, k: nat)
    requires k < |certs|
    ensures var f := FindKey(certs, KeyOf(certs[k])); f.Some? && f.value <= k
  {
    assert SameKey(KeyOf(certs[k]), KeyOf(certs[k]));
  }

  lemma EarlierIsJudged(ev: Evidence, certs: seq<Certified>, k: nat, now: nat)
    requires k < |certs| && FindKey(certs, KeyOf(certs[k])) != Some(k)
    ensures var f := FindKey(certs, KeyOf(certs[k]));
            f.Some? && f.value < k && !Unproven(ev, Midway(ev, certs, k, now)[f.value])
  {
    hide UnprovenReason, SameKey;
    FindsAtMost(certs, k);
  }

  lemma {:induction false} ActiveCertsAre(certs: seq<Certified>)
    ensures forall c :: c in ActiveCerts(certs) <==> c in certs && c.promotion == Active
    decreases |certs|
  {
    if certs != [] {
      ActiveCertsAre(certs[1..]);
      assert certs == [certs[0]] + certs[1..];
    }
  }

  lemma {:induction false} NoneUnproven(ev: Evidence, s: seq<Certified>)
    ensures CountUnproven(ev, s) == 0 <==> forall c :: c in s ==> Proven(ev, c)
    decreases |s|
  {
    hide Proven;
    if s != [] {
      NoneUnproven(ev, s[1..]);
      assert s == [s[0]] + s[1..];
    }
  }

  /**
   When the pass does its work, with no assumption on the stored keys: every ACTIVE certification is proven
   afterwards exactly when each unproven one was the first its own key finds.
   */
  lemma RetractionProvesExactly(st: Records, look: Lookups, now: nat)
    ensures ActiveAreProven(st.evidence, Swept(st, look, now).certs) <==> UnprovenComeFirst(st.evidence, st.certs)
  {
    hide Unproven, FindKey, ActiveAreProven;
    RestIsProvenExactly(st.evidence, st.certs, 0, now);
    MidwayStart(st.evidence, st.certs, now);
  }

  lemma MidwayStart(ev: Evidence, certs: seq<Certified>, now: nat)
    ensures Midway(ev, certs, 0, now) == certs && certs[0..] == certs
  {
    hide Judged;
  }

  /**
   Exact retraction. When the pass does its work it leaves every certification where it was and ACTIVE exactly
   when it was ACTIVE and the stored evidence proves it.
   */
  lemma RetractionIsExact(st: Records, look: Lookups, now: nat)
    requires UnprovenComeFirst(st.evidence, st.certs)
    ensures var after := Swept(st, look, now);
            && |after.certs| == |st.certs| && after.evidence == st.evidence
            && (forall i :: 0 <= i < |st.certs| ==>
                  (after.certs[i].promotion == Active
                   <==> st.certs[i].promotion == Active && Proven(st.evidence, st.certs[i])))
            && (forall i :: 0 <= i < |st.certs| && Proven(st.evidence, st.certs[i]) ==> after.certs[i] == st.certs[i])
            && (forall i :: 0 <= i < |st.certs| ==> KeyOf(after.certs[i]) == KeyOf(st.certs[i]))
            && ActiveAreProven(after.evidence, after.certs)
  {
    hide UnprovenReason, UnprovenComeFirst;
    RetractIsPointwise(st.evidence, st.certs, 0, now);
    MidwayStart(st.evidence, st.certs, now);
  }

  /**
   A second run retracts nothing exactly when the first did its work, and then it changes nothing either.
   */
  lemma SecondRunRetractsNothing(st: Records, look: Lookups, now: nat, later: nat)
    ensures var after := Swept(st, look, now);
            && (CountUnproven(after.evidence, ActiveCerts(after.certs)) == 0
                <==> UnprovenComeFirst(st.evidence, st.certs))
            && (UnprovenComeFirst(st.evidence, st.certs) ==> Swept(after, look, later) == after)
  {
    hide UnprovenReason, Survivor, UnprovenComeFirst;
    RetractionProvesExactly(st, look, now);
    var after := Swept(st, look, now);
    var snapshot := ActiveCerts(after.certs);
    ActiveCertsAre(after.certs);
    NoneUnproven(after.evidence, snapshot);
    if UnprovenComeFirst(st.evidence, st.certs) {
      NothingToRetract(after.evidence, after.certs, snapshot, later);
      NothingLost(after.evidence, snapshot, look, after.catalog, ActiveEntries(after.catalog), later);
    }
  }

  lemma {:induction false} NothingToRetract(ev: Evidence, certs: seq<Certified>, todo: seq<Certified>, now: nat)
    requires forall c :: c in todo ==> Proven(ev, c)
    ensures RetractCerts(ev, certs, todo, now) == certs
    decreases |todo|
  {
    if todo != [] { NothingToRetract(ev, certs, todo[1..], now); }
  }

  // ── the catalog after the pass ──────────────────────────────────────────────

  function Shown(ev: Evidence, snapshot: seq<Certified>, look: Lookups, e: CatalogEntry, now: nat): CatalogEntry {
    var k := Kept(ev, snapshot, look, e);
    if e.promotion == Active && k.Some? then StampedEntry(k.value, now) else e
  }

  /** The catalog once the first k entries have been looked at. */
  function MidwayShown(ev: Evidence, snapshot: seq<Certified>, look: Lookups, es: seq<CatalogEntry>, k: nat, now: nat)
    : (r: seq<CatalogEntry>)
    requires k <= |es|
    ensures |r| == |es|
    ensures forall j :: 0 <= j < |es| ==> r[j] == if j < k then Shown(ev, snapshot, look, es[j], now) else es[j]
  {
    seq(|es|, j requires 0 <= j < |es| => if j < k then Shown(ev, snapshot, look, es[j], now) else es[j])
  }

  lemma ShownKeepsCas(ev: Evidence, snapshot: seq<Certified>, look: Lookups, e: CatalogEntry, now: nat)
    ensures Shown(ev, snapshot, look, e, now).casHash == e.casHash
    ensures Kept(ev, snapshot, look, e).Some? ==> Kept(ev, snapshot, look, e).value.casHash == e.casHash
  {
    hide LostCas, LostImages, Survivor;
  }

  lemma FindEntryIs(es: seq<CatalogEntry>, cas: string, i: nat)
    requires i < |es| && es[i].casHash == cas && forall j :: 0 <= j < i ==> es[j].casHash != cas
    ensures FindEntry(es, cas) == Some(i)
  {
    var f := FindEntry(es, cas);
    assert f.Some? ==> !(i < f.value);
  }

  lemma MidwayShownStep(ev: Evidence, snapshot: seq<Certified>, look: Lookups, es: seq<CatalogEntry>, k: nat, now: nat)
    requires DistinctCas(es) && k < |es|
    ensures var kept := Kept(ev, snapshot, look, es[k]);
            MidwayShown(ev, snapshot, look, es, k + 1, now)
            == if es[k].promotion == Active && kept.Some?
               then UpsertEntry(MidwayShown(ev, snapshot, look, es, k, now), kept.value, now)
               else MidwayShown(ev, snapshot, look, es, k, now)
  {
    hide Kept, MidwayShown;
    var cur := MidwayShown(ev, snapshot, look, es, k, now);
    forall j | 0 <= j < |es| ensures cur[j].casHash == es[j].casHash {
      ShownKeepsCas(ev, snapshot, look, es[j], now);
    }
    ShownKeepsCas(ev, snapshot, look, es[k], now);
    FindEntryIs(cur, es[k].casHash, k);
  }

  lemma StepEntries(ev: Evidence, snapshot: seq<Certified>, look: Lookups, cur: seq<CatalogEntry>,
                    e: CatalogEntry, rest: seq<CatalogEntry>, now: nat)
    ensures var kept := Kept(ev, snapshot, look, e);
            var next := if kept.Some? then UpsertEntry(cur, kept.value, now) else cur;
            RetractEntries(ev, snapshot, look, cur, [e] + rest, now)
            == RetractEntries(ev, snapshot, look, next, rest, now)
  {
    hide Kept, UpsertEntry;
    assert ([e] + rest)[1..] == rest;
  }

  lemma {:induction false} EntriesArePointwise(ev: Evidence, snapshot: seq<Certified>, look: Lookups,
                                               es: seq<CatalogEntry>, k: nat, now: nat)
    requires DistinctCas(es) && k <= |es|
    ensures RetractEntries(ev, snapshot, look, MidwayShown(ev, snapshot, look, es, k, now), ActiveEntries(es[k..]), now)
            == MidwayShown(ev, snapshot, look, es, |es|, now)
    decreases |es| - k
  {
    hide Kept, DistinctCas, MidwayShown, UpsertEntry, Shown;
    if k < |es| {
      var cur := MidwayShown(ev, snapshot, look, es, k, now);
      ActiveEntriesFrom(es, k);
      MidwayShownStep(ev, snapshot, look, es, k, now);
      EntriesArePointwise(ev, snapshot, look, es, k + 1, now);
      StepEntries(ev, snapshot, look, cur, es[k], ActiveEntries(es[k + 1..]), now);
    }
  }

  /** c backs e: it is a provable ACTIVE certification of its casHash, and e does not show a retracted image. */
  predicate Backs(ev: Evidence, lostImages: set<string>, c: Certified, e: CatalogEntry) {
    && c.promotion == Active && Proven(ev, c) && c.casHash == e.casHash
    && (e.imageDigest !in lostImages || e.imageDigest == c.imageDigest)
  }

  /**
   The catalog after the pass: an entry whose casHash lost a certification is ACTIVE only if a surviving
   provable certification backs it; every other entry is as it was.
   */
  lemma CatalogIsBacked(st: Records, look: Lookups, now: nat)
    requires UnprovenComeFirst(st.evidence, st.certs) && DistinctCas(st.catalog)
    ensures var after, snapshot := Swept(st, look, now), ActiveCerts(st.certs);
            && |after.catalog| == |st.catalog|
            && (forall i :: 0 <= i < |st.catalog| ==> after.catalog[i].casHash == st.catalog[i].casHash)
            && (forall i :: 0 <= i < |st.catalog| && st.catalog[i].casHash !in LostCas(st.evidence, snapshot) ==>
                  after.catalog[i] == st.catalog[i])
            && (forall i :: 0 <= i < |st.catalog| && after.catalog[i].promotion == Active
                            && st.catalog[i].casHash in LostCas(st.evidence, snapshot) ==>
                  exists c :: c in after.certs
                    && Backs(st.evidence, LostImages(st.evidence, snapshot), c, after.catalog[i]))
  {
    hide Proven, LostCas, LostImages, UnprovenComeFirst;
    var ev, snapshot := st.evidence, ActiveCerts(st.certs);
    RetractionIsExact(st, look, now);
    EntriesArePointwise(ev, snapshot, look, st.catalog, 0, now);
    assert MidwayShown(ev, snapshot, look, st.catalog, 0, now) == st.catalog && st.catalog[0..] == st.catalog;
    var after := Swept(st, look, now);
    forall i | 0 <= i < |st.catalog|
      ensures after.catalog[i].casHash == st.catalog[i].casHash
      ensures st.catalog[i].casHash !in LostCas(ev, snapshot) ==> after.catalog[i] == st.catalog[i]
    {
      ShownKeepsCas(ev, snapshot, look, st.catalog[i], now);
    }
    forall i | 0 <= i < |st.catalog| && after.catalog[i].promotion == Active
               && st.catalog[i].casHash in LostCas(ev, snapshot)
      ensures exists c :: c in after.certs && Backs(ev, LostImages(ev, snapshot), c, after.catalog[i])
    {
      var c := BackedBy(st, look, now, st.catalog[i]);
      ActiveCertsAre(st.certs);
      var j :| 0 <= j < |st.certs| && st.certs[j] == c;
      assert after.certs[j] == c;
    }
  }

  lemma BackedBy(st: Records, look: Lookups, now: nat, e: CatalogEntry) returns (c: Certified)
    requires var snapshot := ActiveCerts(st.certs);
             e.casHash in LostCas(st.evidence, snapshot)
             && Shown(st.evidence, snapshot, look, e, now).promotion == Active
    ensures var snapshot := ActiveCerts(st.certs);
            && c in snapshot && Proven(st.evidence, c)
            && Backs(st.evidence, LostImages(st.evidence, snapshot), c, Shown(st.evidence, snapshot, look, e, now))
  {
    hide LostCas, LostImages, Admissible, TerminalL5B;
    var snapshot := ActiveCerts(st.certs);
    ActiveCertsAre(st.certs);
    c := Survivor(st.evidence, snapshot, e.casHash).value;
  }

  /** An entry that is ACTIVE although its casHash lost a certification is backed. */
  ghost predicate Warranted(ev: Evidence, snapshot: seq<Certified>, certs: seq<Certified>, e: CatalogEntry) {
    e.promotion == Active && e.casHash in LostCas(ev, snapshot) ==>
      exists c :: c in certs && Backs(ev, LostImages(ev, snapshot), c, e)
  }

  /** No entry before the j-th has its casHash. */
  predicate FirstOfCas(es: seq<CatalogEntry>, j: nat)
    requires j < |es|
  {
    forall i :: 0 <= i < j ==> es[i].casHash != es[j].casHash
  }

  /** What the pass makes of an ACTIVE entry is warranted; one it lets be already was. */
  lemma KeptIsWarranted(st: Records, look: Lookups, now: nat, e: CatalogEntry)
    requires UnprovenComeFirst(st.evidence, st.certs) && e.promotion == Active
    ensures var snapshot, certs := ActiveCerts(st.certs), Swept(st, look, now).certs;
            Warranted(st.evidence, snapshot, certs, Shown(st.evidence, snapshot, look, e, now))
  {
    hide Proven, LostCas, LostImages, UnprovenComeFirst;
    var ev, snapshot := st.evidence, ActiveCerts(st.certs);
    var shown := Shown(ev, snapshot, look, e, now);
    ShownKeepsCas(ev, snapshot, look, e, now);
    if shown.promotion == Active && e.casHash in LostCas(ev, snapshot) {
      var c := BackedBy(st, look, now, e);
      RetractionIsExact(st, look, now);
      ActiveCertsAre(st.certs);
      var j :| 0 <= j < |st.certs| && st.certs[j] == c;
      assert Swept(st, look, now).certs[j] == c;
    }
  }

  lemma {:induction false} FirstsAreWarranted(st: Records, look: Lookups, now: nat, cur: seq<CatalogEntry>,
                                              todo: seq<CatalogEntry>)
    requires UnprovenComeFirst(st.evidence, st.certs)
    requires forall e :: e in todo ==> e.promotion == Active && FindEntry(cur, e.casHash).Some?
    requires forall j :: 0 <= j < |cur| && FirstOfCas(cur, j) ==>
               Warranted(st.evidence, ActiveCerts(st.certs), Swept(st, look, now).certs, cur[j]) || cur[j] in todo
    ensures var snapshot := ActiveCerts(st.certs);
            var last := RetractEntries(st.evidence, snapshot, look, cur, todo, now);
            && |last| == |cur|
            && (forall j :: 0 <= j < |cur| ==> last[j].casHash == cur[j].casHash)
            && (forall j :: 0 <= j < |cur| && !FirstOfCas(cur, j) ==> last[j] == cur[j])
            && (forall j :: 0 <= j < |cur| && FirstOfCas(cur, j) ==>
                  Warranted(st.evidence, snapshot, Swept(st, look, now).certs, last[j]))
    decreases |todo|
  {
    hide Kept, Warranted, UnprovenComeFirst, Swept;
    var ev, snapshot := st.evidence, ActiveCerts(st.certs);
    if todo != [] {
      var e := todo[0];
      var kept := Kept(ev, snapshot, look, e);
      KeptIsWarranted(st, look, now, e);
      ShownKeepsCas(ev, snapshot, look, e, now);
      var at := FindEntry(cur, e.casHash).value;
      var next := if kept.Some? then UpsertEntry(cur, kept.value, now) else cur;
      assert kept.Some? ==> next == cur[at := StampedEntry(kept.value, now)];
      SameFirsts(cur, next);
      assert forall j :: 0 <= j < |cur| && j != at ==> next[j] == cur[j];
      forall j | 0 <= j < |next| && FirstOfCas(next, j)
        ensures Warranted(ev, snapshot, Swept(st, look, now).certs, next[j]) || next[j] in todo[1..]
      {
        assert FirstOfCas(cur, j);
        if cur[j] == e { assert j == at; }
      }
      forall x | x in todo[1..] ensures FindEntry(next, x.casHash).Some? {
        SameFind(cur, next, x.casHash);
      }
      FirstsAreWarranted(st, look, now, next, todo[1..]);
    }
  }

  lemma SameFirsts(a: seq<CatalogEntry>, b: seq<CatalogEntry>)
    requires |a| == |b| && forall j :: 0 <= j < |a| ==> a[j].casHash == b[j].casHash
    ensures forall j :: 0 <= j < |a| ==> FirstOfCas(a, j) == FirstOfCas(b, j)
  {
  }

  lemma SameFind(a: seq<CatalogEntry>, b: seq<CatalogEntry>, cas: string)
    requires |a| == |b| && forall j :: 0 <= j < |a| ==> a[j].casHash == b[j].casHash
    ensures FindEntry(a, cas) == FindEntry(b, cas)
  {
    var f := FindEntry(a, cas);
    if f.Some? { FindEntryIs(b, cas, f.value); }
  }

  lemma {:induction false} ActiveEntriesAre(es: seq<CatalogEntry>)
    ensures forall e :: e in ActiveEntries(es) <==> e in es && e.promotion == Active
    decreases |es|
  {
    if es != [] {
      ActiveEntriesAre(es[1..]);
      assert es == [es[0]] + es[1..];
    }
  }

  /**
   The catalog after the pass, also when a stored one repeats a casHash: every entry that is ACTIVE although its
   casHash lost a certification is backed, exactly when each one that another entry of its casHash precedes was
   backed as it stood. Those are never written; the others always are.
   */
  lemma CatalogIsBackedExactly(st: Records, look: Lookups, now: nat)
    requires UnprovenComeFirst(st.evidence, st.certs)
    ensures var after, snapshot := Swept(st, look, now), ActiveCerts(st.certs);
            && |after.catalog| == |st.catalog|
            && (forall j :: 0 <= j < |st.catalog| && !FirstOfCas(st.catalog, j) ==> after.catalog[j] == st.catalog[j])
            && ((forall j :: 0 <= j < |after.catalog| ==>
                   Warranted(st.evidence, snapshot, after.certs, after.catalog[j]))
                <==> forall j :: 0 <= j < |st.catalog| && !FirstOfCas(st.catalog, j) ==>
                       Warranted(st.evidence, snapshot, after.certs, st.catalog[j]))
  {
    hide Warranted, UnprovenComeFirst;
    ActiveEntriesAre(st.catalog);
    forall e | e in ActiveEntries(st.catalog) ensures FindEntry(st.catalog, e.casHash).Some? {
    }
    forall j | 0 <= j < |st.catalog|
      ensures Warranted(st.evidence, ActiveCerts(st.certs), Swept(st, look, now).certs, st.catalog[j])
              || st.catalog[j] in ActiveEntries(st.catalog)
    {
      InactiveIsWarranted(st.evidence, ActiveCerts(st.certs), Swept(st, look, now).certs, st.catalog[j]);
    }
    FirstsAreWarranted(st, look, now, st.catalog, ActiveEntries(st.catalog));
  }

  lemma InactiveIsWarranted(ev: Evidence, snapshot: seq<Certified>, certs: seq<Certified>, e: CatalogEntry)
    ensures e.promotion != Active ==> Warranted(ev, snapshot, certs, e)
  {
  }

  /** Such a catalog: the only certification of a casHash is retracted, the second entry with it stays ACTIVE. */
  lemma RepeatedEntryStaysActive(ev: Evidence, c: Certified, first: CatalogEntry, second: CatalogEntry,
                                 look: Lookups, now: nat)
    requires Unproven(ev, c) && c.casHash != "" && first.casHash == second.casHash == c.casHash
    requires first.promotion == second.promotion == Active
    ensures var st := Records(ev, [c], [first, second]);
            var after := Swept(st, look, now);
            && ActiveAreProven(ev, after.certs) && |after.catalog| == 2 && after.catalog[1] == second
            && !Warranted(ev, ActiveCerts(st.certs), after.certs, second)
  {
    hide Proven, Swept;
    var st := Records(ev, [c], [first, second]);
    FindKeyIs([c], KeyOf(c), 0);
    assert UnprovenComeFirst(ev, st.certs);
    RetractionIsExact(st, look, now);
    ActiveCertsAre(st.certs);
    assert c in st.certs && c in ActiveCerts(st.certs) && c.casHash in LostCas(ev, ActiveCerts(st.certs));
    assert st.catalog[0].casHash == st.catalog[1].casHash && !FirstOfCas(st.catalog, 1);
    CatalogIsBackedExactly(st, look, now);
  }

  // ── mixed keys ──────────────────────────────────────────────────────────────

  /** The key relation is not transitive once a legacy record without a key is among the others. */
  lemma MixedKeysAreNotTransitive()
    ensures var a, legacy, b := Key("x", "spec", "p1"), Key("x", "", ""), Key("x", "spec", "p2");
            SameKey(a, legacy) && SameKey(legacy, b) && !SameKey(a, b)
  {
  }

  /**
   With mixed keys the pass can fail: upserts leave two records under one key, the retraction of the second
   overwrites the first, and the unproven one stays ACTIVE, while a provable one is lost.
   */
  lemma MixedKeysEscapeRetraction(ev: Evidence, proven: Certified, unproven: Certified, look: Lookups, now: nat)
    requires proven.imageDigest == "x" && unproven.imageDigest == "y"
    requires proven.toolSpecDigest == unproven.toolSpecDigest == "spec"
    requires proven.platform == unproven.platform == "p"
    requires proven.promotion == unproven.promotion == Active && proven.certifiedAt == unproven.certifiedAt == 1
    requires Proven(ev, proven) && !Proven(ev, unproven)
    ensures var legacy := Certified("x", "", "", "t", "1", "", Retracted, 1, "", "");
            var certs := Upsert(Upsert(Upsert([], legacy, now), unproven, now), proven, now);
            var after := Swept(Records(ev, certs, []), look, now);
            && certs == [proven, unproven]
            && after.certs == [unproven.(promotion := Retracted), unproven]
            && !ActiveAreProven(ev, after.certs)
  {
    hide Proven;
    var legacy := Certified("x", "", "", "t", "1", "", Retracted, 1, "", "");
    assert Upsert([], legacy, now) == [legacy];
    assert Upsert([legacy], unproven, now) == [legacy, unproven];
    var certs := Upsert([legacy, unproven], proven, now);
    assert certs == [proven, unproven];
    assert certs[1..] == [unproven];
    assert ActiveCerts([unproven]) == [unproven];
    assert ActiveCerts(certs) == [proven] + [unproven] == [proven, unproven];
    var gone := unproven.(promotion := Retracted);
    assert Upsert(certs, gone, now) == [gone, unproven];
    assert [proven, unproven][1..] == [unproven] && [unproven][1..] == [];
    assert RetractCerts(ev, certs, [unproven], now) == [gone, unproven];
    assert RetractCerts(ev, certs, [proven, unproven], now) == [gone, unproven];
    assert [gone, unproven][1] == unproven;
  }
}
