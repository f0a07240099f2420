/**
 Check and scan intake: store the record, then certify what its evidence allows. Whatever arrives, in any
 order, no ACTIVE certification is left without evidence that proves it.
 */
module CertificationIntake {
  import opened SharedFile
  import opened Wrappers
  import opened Certification

  /** The strictly newest scan; the first of several equally new ones. */
  function Latest(ss: seq<Scan>): (r: Option<Scan>)
    ensures r.None? <==> ss == []
    ensures r.Some? ==> r.value in ss
    ensures forall s :: s in ss ==> s.scannedAt <= r.value.scannedAt
    decreases |ss|
  {
    if ss == [] then None
    else
      var before, last := Latest(ss[..|ss| - 1]), ss[|ss| - 1];
      assert ss == ss[..|ss| - 1] + [last];
      if before.None? || last.scannedAt > before.value.scannedAt then Some(last) else before
  }

  function ScansOf(ss: seq<Scan>, image: string): seq<Scan> {
    if ss == [] then [] else (if ss[0].imageDigest == image then [ss[0]] else []) + ScansOf(ss[1..], image)
  }

  function ChecksOf(cs: seq<Check>, image: string): seq<Check> {
    if cs == [] then [] else (if cs[0].imageDigest == image then [cs[0]] else []) + ChecksOf(cs[1..], image)
  }

  function FirstAdmissible(cs: seq<Check>): (r: Option<Check>)
    ensures r.Some? ==> r.value in cs && Admissible(r.value)
    ensures r.None? ==> forall c :: c in cs ==> !Admissible(c)
  {
    if cs == [] then None else if Admissible(cs[0]) then Some(cs[0]) else FirstAdmissible(cs[1..])
  }

  /** The two saves of one certification. */
  datatype Saves = Saves(cert: Writing<Records>, entry: Writing<Records>)

  datatype Attempt = Attempt(host: Host<Records>, error: Option<Error>)

  /** What a certification is driven by. */
  datatype Drive = Drive(check: Check, scan: Option<Scan>)

  predicate Blocks(scan: Option<Scan>) {
    scan.Some? && scan.value.policyResult == BLOCKED
  }

  predicate Named(check: Check) {
    check.toolName != "" && check.version != ""
  }

  function CertOf(d: Drive, look: Lookups, now: nat): Certified {
    var check, cas := d.check, look.casHash(d.check.imageDigest);
    Certified(check.imageDigest, check.toolSpecDigest, check.platform, check.toolName, check.version,
              if cas.Some? then cas.value else "", if Blocks(d.scan) then Retracted else Active, now,
              check.checkId, if d.scan.Some? then d.scan.value.scanId else "")
  }

  function EntryOf(check: Check, cert: Certified, look: Lookups): CatalogEntry {
    var ref := look.imageRef(check.imageDigest);
    CatalogEntry(cert.casHash, check.toolName, check.version, StableRef(check.toolName, check.version),
                 check.imageDigest, if ref.Some? then ref.value else "", check.toolName,
                 cert.promotion, cert.certifiedAt, check.validationHash)
  }

  /** What a certification makes of the records: the certification, and then also its catalog entry. */
  function Decided(st: Records, d: Drive, look: Lookups, now: nat, entryToo: bool): Records {
    var cert := CertOf(d, look, now);
    st.(certs := Upsert(st.certs, cert, now),
        catalog := if entryToo && cert.casHash != "" then UpsertEntry(st.catalog, EntryOf(d.check, cert, look), now)
                   else st.catalog)
  }

  function ErrorOf(s: Saved<Records>): Option<Error> {
    if s.ok then None else Some(SaveFailed)
  }

  /** certify */
  function Certify(h: Host<Records>, d: Drive, look: Lookups, now: nat, saves: Saves): Attempt {
    if !Named(d.check) then Attempt(h, Some(MissingName))
    else if d.check.imageDigest == "" then Attempt(h, Some(EmptyKey))
    else
      var first := Written(h, Decided(h.mem, d, look, now, false), saves.cert);
      if !first.ok || CertOf(d, look, now).casHash == "" then Attempt(first.host, ErrorOf(first))
      else
        var second := Written(first.host, Decided(h.mem, d, look, now, true), saves.entry);
        Attempt(second.host, ErrorOf(second))
  }

  /** What certifies a stored check: itself, with the newest scan of its image. */
  function DriveOfCheck(st: Records, check: Check): Option<Drive> {
    if CertifiesOnCheck(check) then Some(Drive(check, Latest(ScansOf(st.evidence.scans, check.imageDigest)))) else None
  }

  /** What certifies a stored scan: itself, with the first admissible check of its image. */
  function DriveOfScan(st: Records, scan: Scan): Option<Drive> {
    if !TerminalL5B(scan) && scan.policyResult != BLOCKED then None
    else
      match FirstAdmissible(ChecksOf(st.evidence.checks, scan.imageDigest))
      case None => None
      case Some(check) => Some(Drive(check, Some(scan)))
  }

  function Evaluate(h: Host<Records>, d: Option<Drive>, look: Lookups, now: nat, saves: Saves): Attempt {
    if d.None? then Attempt(h, None) else Certify(h, d.value, look, now, saves)
  }

  // ── the service ─────────────────────────────────────────────────────────────

  method CertifyCheck(store: RecordStore, check: Check, scan: Option<Scan>, look: Lookups, now: nat, saves: Saves)
    returns (error: Option<Error>)
    modifies store
    ensures var a := Certify(old(store.Value()), Drive(check, scan), look, now, saves);
            store.Value() == a.host && error == a.error
  {
    hide Upsert, UpsertEntry, Commit;
    if check.toolName == "" || check.version == "" {
      return Some(MissingName);
    }
    var policyBlocked := false;
    var scanId := "";
    if scan.Some? {
      scanId := scan.value.scanId;
      if scan.value.policyResult == BLOCKED { policyBlocked := true; }
    }
    var status := Active;
    if policyBlocked { status := Retracted; }
    var cert := Certified(check.imageDigest, check.toolSpecDigest, check.platform, check.toolName, check.version,
                          "", status, now, check.checkId, scanId);
    var cas := look.casHash(check.imageDigest);
    if cas.Some? { cert := cert.(casHash := cas.value); }
    ghost var st := store.Value().mem;
    assert Decided(st, Drive(check, scan), look, now, false) == st.(certs := Upsert(st.certs, cert, now));
    WrittenIsDurable(store.Value(), Decided(st, Drive(check, scan), look, now, false), saves.cert);
    error := store.UpsertCertifiedToolImageRecord(cert, now, saves.cert);
    if error.Some? {
      return;
    }
    if cert.casHash == "" {
      return None;
    }
    var imageRef := "";
    var image := look.imageRef(check.imageDigest);
    if image.Some? { imageRef := image.value; }
    var entry := CatalogEntry(cert.casHash, check.toolName, check.version, StableRef(check.toolName, check.version),
                              check.imageDigest, imageRef, check.toolName, status, cert.certifiedAt,
                              check.validationHash);
    error := store.UpsertToolFunctionCatalogEntry(entry, now, saves.entry);
  }

  method EvaluateAfterCheck(store: RecordStore, check: Check, look: Lookups, now: nat, saves: Saves)
    returns (error: Option<Error>)
    modifies store
    ensures var was := old(store.Value());
            var a := Evaluate(was, DriveOfCheck(was.mem, check), look, now, saves);
            store.Value() == a.host && error == a.error
  {
    if Ineligibility(check) != "" {
      return None;
    }
    if !check.terminal {
      return None;
    }
    var latest := LatestScan(store.scans, check.imageDigest);
    error := CertifyCheck(store, check, latest, look, now, saves);
  }

  lemma ScansStep(scans: seq<Scan>, image: string, seen: seq<Scan>)
    requires scans != []
    ensures seen + ScansOf(scans, image)
            == (if scans[0].imageDigest == image then seen + [scans[0]] else seen) + ScansOf(scans[1..], image)
  {
  }

  lemma LatestAppend(seen: seq<Scan>, s: Scan)
    ensures Latest(seen + [s])
            == if Latest(seen).None? || s.scannedAt > Latest(seen).value.scannedAt then Some(s) else Latest(seen)
  {
    assert (seen + [s])[..|seen|] == seen;
  }

  method LatestScan(scans: seq<Scan>, image: string) returns (latest: Option<Scan>)
    ensures latest == Latest(ScansOf(scans, image))
  {
    hide Latest, ScansOf;
    latest := None;
    ghost var seen := [];
    var i := 0;
    assert scans[0..] == scans && [] + ScansOf(scans, image) == ScansOf(scans, image);
    while i < |scans|
      invariant 0 <= i <= |scans|
      invariant seen + ScansOf(scans[i..], image) == ScansOf(scans, image)
      invariant latest == Latest(seen)
    {
      assert scans[i..][0] == scans[i] && scans[i..][1..] == scans[i + 1..];
      ScansStep(scans[i..], image, seen);
      if scans[i].imageDigest == image {
        LatestAppend(seen, scans[i]);
        if latest.None? || scans[i].scannedAt > latest.value.scannedAt {
          latest := Some(scans[i]);
        }
        seen := seen + [scans[i]];
      }
      i := i + 1;
    }
    assert scans[i..] == [] && ScansOf([], image) == [] && seen + [] == seen by { NoScans(image); }
  }

  lemma NoScans(image: string)
    ensures ScansOf([], image) == []
  {
  }

  method EvaluateAfterScan(store: RecordStore, scan: Scan, look: Lookups, now: nat, saves: Saves)
    returns (error: Option<Error>)
    modifies store
    ensures var was := old(store.Value());
            var a := Evaluate(was, DriveOfScan(was.mem, scan), look, now, saves);
            store.Value() == a.host && error == a.error
  {
    hide Certify, FirstAdmissible, ChecksOf, Ineligibility;
    if !TerminalL5B(scan) && scan.policyResult != BLOCKED {
      return None;
    }
    var i := 0;
    while i < |store.checks|
      invariant 0 <= i <= |store.checks| && store.Value() == old(store.Value())
      invariant FirstAdmissible(ChecksOf(store.checks, scan.imageDigest))
                == FirstAdmissible(ChecksOf(store.checks[i..], scan.imageDigest))
    {
      assert store.checks[i..][0] == store.checks[i] && store.checks[i..][1..] == store.checks[i + 1..];
      AdmissibleStep(store.checks[i..], scan.imageDigest);
      if store.checks[i].imageDigest == scan.imageDigest && Ineligibility(store.checks[i]) == "" {
        error := CertifyCheck(store, store.checks[i], Some(scan), look, now, saves);
        return;
      }
      i := i + 1;
    }
    NoneAdmissible(scan.imageDigest);
    assert store.checks[i..] == [];
    return None;
  }

  lemma NoneAdmissible(image: string)
    ensures FirstAdmissible(ChecksOf([], image)) == None
  {
  }

  lemma AdmissibleStep(cs: seq<Check>, image: string)
    requires cs != []
    ensures FirstAdmissible(ChecksOf(cs, image))
            == if cs[0].imageDigest == image && Admissible(cs[0]) then Some(cs[0])
               else FirstAdmissible(ChecksOf(cs[1..], image))
  {
    hide Ineligibility;
    assert ([cs[0]] + ChecksOf(cs[1..], image))[1..] == ChecksOf(cs[1..], image);
    assert [] + ChecksOf(cs[1..], image) == ChecksOf(cs[1..], image);
  }

  // ── runs of intakes ─────────────────────────────────────────────────────────

  /** What comes in. */
  datatype Item = CheckItem(check: Check) | ScanItem(scan: Scan)

  datatype Intake = Intake(item: Item, stored: Writing<Records>, look: Lookups, now: nat, saves: Saves)

  /** The records with what came in appended; a used or empty id is refused. */
  function Taken(st: Records, item: Item): Option<Records> {
    match item
    case CheckItem(c) =>
      if c.checkId == "" || GetCheck(st.evidence.checks, c.checkId).Some? then None
      else Some(st.(evidence := st.evidence.(checks := st.evidence.checks + [c])))
    case ScanItem(s) =>
      if s.scanId == "" || GetScan(st.evidence.scans, s.scanId).Some? then None
      else Some(st.(evidence := st.evidence.(scans := st.evidence.scans + [s])))
  }

  function DriveOf(st: Records, item: Item): Option<Drive> {
    match item
    case CheckItem(c) => if c.validationStatus == SUCCEEDED then DriveOfCheck(st, c) else None
    case ScanItem(s) => DriveOfScan(st, s)
  }

  /** A handler that nothing of its own process interrupts: append, and evaluate if the append was saved. */
  function Step(h: Host<Records>, intake: Intake): Host<Records> {
    match Taken(h.mem, intake.item)
    case None => h
    case Some(held) =>
      var appended := Written(h, held, intake.stored);
      if !appended.ok then appended.host
      else Evaluate(appended.host, DriveOf(held, intake.item), intake.look, intake.now, intake.saves).host
  }

  /** An intake, a save for another section, another Store, a reload, a crash. */
  datatype Event =
    | Arrives(intake: Intake)
    | Others(theirs: Foreign<Records>)
    | Resaved(save: SaveOutcome)
    | Reread
    | Crashed(to: Records)

  function React(h: Host<Records>, e: Event): Host<Records> {
    match e
    case Arrives(intake) => Step(h, intake)
    case Others(theirs) => Overwritten(h, theirs.to, theirs.synced)
    case Resaved(save) => Save(h, save).host
    case Reread => Reloaded(h)
    case Crashed(to) => Restarted(h, to)
  }

  function After(h: Host<Records>, es: seq<Event>): Host<Records>
    decreases |es|
  {
    if es == [] then h else After(React(h, es[0]), es[1..])
  }

  /** What another Store renames in before the saves of this intake. */
  predicate Lands(w: Writing<Records>, r: Records) {
    w.theirs.Some? && w.theirs.value.to == r
  }

  predicate LandsDuring(intake: Intake, r: Records) {
    Lands(intake.stored, r) || Lands(intake.saves.cert, r) || Lands(intake.saves.entry, r)
  }

  predicate LandsIn(e: Event, r: Records) {
    match e
    case Arrives(intake) => LandsDuring(intake, r)
    case Others(theirs) => theirs.to == r
    case _ => false
  }

  /** The records an intake can make of what memory holds. */
  predicate Makes(st: Records, intake: Intake, r: Records) {
    var held := Taken(st, intake.item);
    held.Some? &&
    (r == held.value ||
     var d := DriveOf(held.value, intake.item);
     d.Some? && (r == Decided(held.value, d.value, intake.look, intake.now, false)
                 || r == Decided(held.value, d.value, intake.look, intake.now, true)))
  }

  lemma CertifyContents(h: Host<Records>, d: Drive, look: Lookups, now: nat, saves: Saves, r: Records)
    requires r in Contents(Certify(h, d, look, now, saves).host)
    ensures r in Contents(h) || Lands(saves.cert, r) || Lands(saves.entry, r)
            || r == Decided(h.mem, d, look, now, false) || r == Decided(h.mem, d, look, now, true)
  {
    hide Decided, Contents, Written;
    if Named(d.check) && d.check.imageDigest != "" {
      var next := Decided(h.mem, d, look, now, false);
      var first := Written(h, next, saves.cert);
      if r in Contents(first.host) {
        WrittenContents(h, next, saves.cert, r);
      } else {
        WrittenContents(first.host, Decided(h.mem, d, look, now, true), saves.entry, r);
      }
    }
  }

  /** Every content an event leaves was there, was renamed in by another Store, or is made of memory. */
  lemma EventContents(h: Host<Records>, e: Event, r: Records)
    requires r in Contents(React(h, e))
    ensures r in Contents(h) || LandsIn(e, r) || (e.Arrives? && Makes(h.mem, e.intake, r))
  {
    hide Taken, DriveOf, Decided, Certify, Written;
    if e.Arrives? && Taken(h.mem, e.intake.item).Some? {
      var intake, held := e.intake, Taken(h.mem, e.intake.item).value;
      var appended := Written(h, held, intake.stored);
      if r in Contents(appended.host) {
        WrittenContents(h, held, intake.stored, r);
      } else {
        var d := DriveOf(held, intake.item);
        assert appended.host.mem == held by { WrittenIsDurable(h, held, intake.stored); }
        CertifyContents(appended.host, d.value, intake.look, intake.now, intake.saves, r);
      }
    }
  }

  /** Ids are set and unique. */
  ghost predicate GoodIds(ev: Evidence) {
    && (forall i :: 0 <= i < |ev.checks| ==>
          ev.checks[i].checkId != "" && GetCheck(ev.checks, ev.checks[i].checkId) == Some(ev.checks[i]))
    && (forall i :: 0 <= i < |ev.scans| ==>
          ev.scans[i].scanId != "" && GetScan(ev.scans, ev.scans[i].scanId) == Some(ev.scans[i]))
  }

  /** Ids are unique, and stored records prove every ACTIVE certification. */
  ghost predicate Sound(st: Records) {
    GoodIds(st.evidence) && ActiveAreProven(st.evidence, st.certs)
  }

  lemma {:induction false} GetCheckAppend(cs: seq<Check>, c: Check, id: string)
    ensures GetCheck(cs + [c], id) == if GetCheck(cs, id).Some? then GetCheck(cs, id)
                                      else if c.checkId == id then Some(c) else None
    decreases |cs|
  {
    if cs == [] {
      assert cs + [c] == [c];
    } else {
      GetCheckAppend(cs[1..], c, id);
      assert (cs + [c])[1..] == cs[1..] + [c];
    }
  }

  lemma {:induction false} GetScanAppend(ss: seq<Scan>, s: Scan, id: string)
    ensures GetScan(ss + [s], id) == if GetScan(ss, id).Some? then GetScan(ss, id)
                                     else if s.scanId == id then Some(s) else None
    decreases |ss|
  {
    if ss == [] {
      assert ss + [s] == [s];
    } else {
      GetScanAppend(ss[1..], s, id);
      assert (ss + [s])[1..] == ss[1..] + [s];
    }
  }

  /** Evidence is append-only, so what is proven stays proven. */
  lemma ProofsOutliveChecks(ev: Evidence, c: Check, certs: seq<Certified>)
    requires GoodIds(ev) && c.checkId != "" && GetCheck(ev.checks, c.checkId).None?
    ensures var more := ev.(checks := ev.checks + [c]);
            GoodIds(more) && (ActiveAreProven(ev, certs) ==> ActiveAreProven(more, certs))
  {
    hide GetCheck, GetScan, Admissible, Ineligibility, TerminalL5B;
    forall id ensures GetCheck(ev.checks + [c], id) == if GetCheck(ev.checks, id).Some? then GetCheck(ev.checks, id)
                                                       else if c.checkId == id then Some(c) else None
    {
      GetCheckAppend(ev.checks, c, id);
    }
  }

  lemma ProofsOutliveScans(ev: Evidence, s: Scan, certs: seq<Certified>)
    requires GoodIds(ev) && s.scanId != "" && GetScan(ev.scans, s.scanId).None?
    ensures var more := ev.(scans := ev.scans + [s]);
            GoodIds(more) && (ActiveAreProven(ev, certs) ==> ActiveAreProven(more, certs))
  {
    hide GetCheck, GetScan, Admissible, Ineligibility, TerminalL5B;
    forall id ensures GetScan(ev.scans + [s], id) == if GetScan(ev.scans, id).Some? then GetScan(ev.scans, id)
                                                     else if s.scanId == id then Some(s) else None
    {
      GetScanAppend(ev.scans, s, id);
    }
  }

  /** What certify writes is proven when the check is stored and admissible, and closed by itself or by the scan. */
  lemma DecidedKeepsProofs(st: Records, d: Drive, look: Lookups, now: nat, entryToo: bool)
    requires Sound(st)
    requires d.check in st.evidence.checks && Admissible(d.check)
    requires d.check.terminal || Blocks(d.scan)
             || (d.scan.Some? && d.scan.value in st.evidence.scans && TerminalL5B(d.scan.value))
    ensures Sound(Decided(st, d, look, now, entryToo))
  {
    hide GetCheck, GetScan, Ineligibility, TerminalL5B, FindKey, UpsertEntry;
    var cert := Stamped(CertOf(d, look, now), now);
    assert cert.promotion == Active ==> Proven(st.evidence, cert);
    assert forall i :: 0 <= i < |Upsert(st.certs, cert, now)| ==>
        Upsert(st.certs, cert, now)[i] == cert || Upsert(st.certs, cert, now)[i] in st.certs;
  }

  lemma {:induction false} ChecksOfAre(cs: seq<Check>, image: string)
    ensures forall c :: c in ChecksOf(cs, image) <==> c in cs && c.imageDigest == image
    decreases |cs|
  {
    if cs != [] {
      ChecksOfAre(cs[1..], image);
      assert cs == [cs[0]] + cs[1..];
    }
  }

  lemma TakenKeepsProofs(st: Records, item: Item)
    requires Sound(st) && Taken(st, item).Some?
    ensures Sound(Taken(st, item).value)
  {
    hide GoodIds, ActiveAreProven, GetCheck, GetScan;
    match item
    case CheckItem(c) => ProofsOutliveChecks(st.evidence, c, st.certs);
    case ScanItem(s) => ProofsOutliveScans(st.evidence, s, st.certs);
  }

  /** Whatever an intake makes of sound records is sound. */
  lemma IntakeKeepsProofs(st: Records, intake: Intake, r: Records)
    requires Sound(st) && Makes(st, intake, r)
    ensures Sound(r)
  {
    hide Sound, Decided, GetCheck, GetScan, Ineligibility, TerminalL5B;
    TakenKeepsProofs(st, intake.item);
    var held := Taken(st, intake.item).value;
    var d := DriveOf(held, intake.item);
    if d.Some? {
      if intake.item.ScanItem? { ChecksOfAre(held.evidence.checks, intake.item.scan.imageDigest); }
      DecidedKeepsProofs(held, d.value, intake.look, intake.now, false);
      DecidedKeepsProofs(held, d.value, intake.look, intake.now, true);
    }
  }

  ghost predicate AllSound(h: Host<Records>) {
    forall r :: r in Contents(h) ==> Sound(r)
  }

  /** The other Stores run the same program. */
  ghost predicate OthersSound(e: Event) {
    forall r :: LandsIn(e, r) ==> Sound(r)
  }

  /** Any event, with any saves failing, keeps memory, the file and every content a crash may bring back sound. */
  lemma EventKeepsProofs(h: Host<Records>, e: Event)
    requires AllSound(h) && OthersSound(e)
    ensures AllSound(React(h, e))
  {
    hide Sound, React, LandsIn, Makes;
    forall r | r in Contents(React(h, e)) ensures Sound(r) {
      EventContents(h, e, r);
      if e.Arrives? && Makes(h.mem, e.intake, r) { IntakeKeepsProofs(h.mem, e.intake, r); }
    }
  }

  lemma {:induction false} EventsKeepProofs(h: Host<Records>, es: seq<Event>)
    requires AllSound(h) && forall i :: 0 <= i < |es| ==> OthersSound(es[i])
    ensures AllSound(After(h, es))
    decreases |es|
  {
    hide AllSound, OthersSound, React;
    if es != [] {
      EventKeepsProofs(h, es[0]);
      EventsKeepProofs(React(h, es[0]), es[1..]);
    }
  }

  lemma NothingUnproven(st: Records)
    requires CountUnproven(st.evidence, ActiveCerts(st.certs)) == 0
    ensures ActiveAreProven(st.evidence, st.certs) && UnprovenComeFirst(st.evidence, st.certs)
  {
    hide UnprovenReason;
    NoneUnproven(st.evidence, ActiveCerts(st.certs));
    ActiveCertsAre(st.certs);
  }

  /** The startup pass leaves a sound file exactly when each unproven certification was the first its key finds. */
  lemma PassIsSoundExactly(st: Records, look: Lookups, now: nat)
    requires GoodIds(st.evidence)
    ensures AllSound(Passed(Start(st), look, now)) <==> UnprovenComeFirst(st.evidence, st.certs)
  {
    hide GoodIds, ActiveAreProven, UnprovenComeFirst, Proven, Swept;
    var h := Passed(Start(st), look, now);
    assert Swept(st, look, now).evidence == st.evidence by { SweptEvidence(st, look, now); }
    assert Contents(h) == {h.mem};
    if CountUnproven(st.evidence, ActiveCerts(st.certs)) == 0 {
      NothingUnproven(st);
    } else {
      RetractionProvesExactly(st, look, now);
    }
  }

  lemma SweptEvidence(st: Records, look: Lookups, now: nat)
    ensures Swept(st, look, now).evidence == st.evidence
  {
  }

  /**
   Certification soundness. After the startup pass, and after any checks and scans that follow it, whatever their
   content, order and the fate of their saves, through reloads, crashes and the writes of other Stores: every
   ACTIVE certification, in memory, in the file and in every content a crash may bring back, is proven by stored
   records. At the start this holds exactly when each unproven certification was the first its key finds.
   */
  lemma EveryActiveCertificationIsProven(st: Records, look: Lookups, now: nat, es: seq<Event>)
    requires GoodIds(st.evidence) && forall i :: 0 <= i < |es| ==> OthersSound(es[i])
    ensures UnprovenComeFirst(st.evidence, st.certs) ==>
              forall r :: r in Contents(After(Passed(Start(st), look, now), es)) ==>
                ActiveAreProven(r.evidence, r.certs)
    ensures !UnprovenComeFirst(st.evidence, st.certs) ==>
              !ActiveAreProven(st.evidence, Passed(Start(st), look, now).mem.certs)
  {
    hide GoodIds, ActiveAreProven, UnprovenComeFirst, OthersSound, Passed, After;
    PassIsSoundExactly(st, look, now);
    if UnprovenComeFirst(st.evidence, st.certs) {
      EventsKeepProofs(Passed(Start(st), look, now), es);
    } else {
      PassFailsInMemory(st, look, now);
    }
  }

  lemma PassFailsInMemory(st: Records, look: Lookups, now: nat)
    requires !UnprovenComeFirst(st.evidence, st.certs)
    ensures !ActiveAreProven(st.evidence, Passed(Start(st), look, now).mem.certs)
  {
    hide ActiveAreProven, UnprovenComeFirst, Swept;
    if CountUnproven(st.evidence, ActiveCerts(st.certs)) == 0 { NothingUnproven(st); }
    RetractionProvesExactly(st, look, now);
  }

  // ── distinct keys ───────────────────────────────────────────────────────────

  predicate KeyedIntake(intake: Intake) {
    intake.item.CheckItem? ==> intake.item.check.toolSpecDigest != "" && intake.item.check.platform != ""
  }

  ghost predicate KeyedEvidence(ev: Evidence) {
    forall i :: 0 <= i < |ev.checks| ==> ev.checks[i].toolSpecDigest != "" && ev.checks[i].platform != ""
  }

  /** Every check and certification is fully keyed, no two certifications share a key and no two entries a casHash. */
  ghost predicate WellKeyed(st: Records) {
    KeyedEvidence(st.evidence) && FullyKeyed(st.certs) && DistinctKeys(st.certs) && DistinctCas(st.catalog)
  }

  lemma UpsertKeepsCasDistinct(es: seq<CatalogEntry>, e: CatalogEntry, now: nat)
    requires DistinctCas(es)
    ensures DistinctCas(UpsertEntry(es, e, now))
  {
    var f, next := FindEntry(es, e.casHash), UpsertEntry(es, e, now);
    if f.Some? {
      assert forall i :: 0 <= i < |es| ==> next[i].casHash == es[i].casHash;
    } else {
      assert forall i :: 0 <= i < |es| ==> next[i] == es[i];
    }
  }

  lemma DecidedKeepsKeys(st: Records, d: Drive, look: Lookups, now: nat, entryToo: bool)
    requires WellKeyed(st) && d.check.toolSpecDigest != "" && d.check.platform != ""
    ensures WellKeyed(Decided(st, d, look, now, entryToo))
  {
    hide FullyKeyed, DistinctKeys, DistinctCas, Upsert, UpsertEntry;
    UpsertKeepsKeysDistinct(st.certs, CertOf(d, look, now), now);
    UpsertKeepsCasDistinct(st.catalog, EntryOf(d.check, CertOf(d, look, now), look), now);
  }

  lemma IntakeKeepsKeys(st: Records, intake: Intake, r: Records)
    requires WellKeyed(st) && KeyedIntake(intake) && Makes(st, intake, r)
    ensures WellKeyed(r)
  {
    hide FullyKeyed, DistinctKeys, DistinctCas, Decided, GetCheck, GetScan, Ineligibility, TerminalL5B;
    var held := Taken(st, intake.item).value;
    assert WellKeyed(held);
    var d := DriveOf(held, intake.item);
    if d.Some? {
      if intake.item.ScanItem? { ChecksOfAre(held.evidence.checks, intake.item.scan.imageDigest); }
      DecidedKeepsKeys(held, d.value, intake.look, intake.now, false);
      DecidedKeepsKeys(held, d.value, intake.look, intake.now, true);
    }
  }

  ghost predicate AllKeyed(h: Host<Records>) {
    forall r :: r in Contents(h) ==> WellKeyed(r)
  }

  ghost predicate KeyedEvent(e: Event) {
    (e.Arrives? ==> KeyedIntake(e.intake)) && forall r :: LandsIn(e, r) ==> WellKeyed(r)
  }

  /**
   Intakes of fully keyed records keep keys distinct in every content, so the startup pass after any crash finds
   each unproven certification first under its key.
   */
  lemma {:induction false} KeyedRunsKeepKeysDistinct(h: Host<Records>, es: seq<Event>)
    requires AllKeyed(h) && forall i :: 0 <= i < |es| ==> KeyedEvent(es[i])
    ensures AllKeyed(After(h, es))
    ensures forall r :: r in Contents(After(h, es)) ==> UnprovenComeFirst(r.evidence, r.certs)
    decreases |es|
  {
    hide WellKeyed, React, LandsIn, Makes, UnprovenComeFirst, KeyedIntake;
    if es == [] {
      forall r | r in Contents(h) ensures UnprovenComeFirst(r.evidence, r.certs) { WellKeyedComeFirst(r); }
    } else {
      assert KeyedEvent(es[0]);
      forall r | r in Contents(React(h, es[0])) ensures WellKeyed(r) {
        EventContents(h, es[0], r);
        if es[0].Arrives? && Makes(h.mem, es[0].intake, r) { IntakeKeepsKeys(h.mem, es[0].intake, r); }
      }
      KeyedRunsKeepKeysDistinct(React(h, es[0]), es[1..]);
    }
  }

  lemma WellKeyedComeFirst(r: Records)
    requires WellKeyed(r)
    ensures UnprovenComeFirst(r.evidence, r.certs)
  {
    hide UnprovenComeFirst, DistinctKeys;
    DistinctKeysComeFirst(r.evidence, r.certs);
  }

  // ── the catalog after an intake ─────────────────────────────────────────────

  predicate BackedBySome(certs: seq<Certified>, cas: string) {
    exists j :: 0 <= j < |certs| && certs[j].promotion == Active && certs[j].casHash == cas
  }

  /** Every ACTIVE catalog entry has an ACTIVE certification with its casHash. */
  ghost predicate Backed(st: Records) {
    forall i :: 0 <= i < |st.catalog| && st.catalog[i].promotion == Active ==>
      BackedBySome(st.certs, st.catalog[i].casHash)
  }

  /** The intake writes this catalog entry anew. */
  predicate Rewrites(st: Records, cert: Certified, entryToo: bool, i: nat) {
    entryToo && cert.casHash != "" && FindEntry(st.catalog, cert.casHash) == Some(i)
  }

  /** The certification at f is the only ACTIVE one with its casHash. */
  predicate OnlyBacking(certs: seq<Certified>, f: nat)
    requires f < |certs|
  {
    certs[f].promotion == Active &&
    forall j :: 0 <= j < |certs| && j != f && certs[j].promotion == Active ==> certs[j].casHash != certs[f].casHash
  }

  /**
   The certification replaced is the only one that backs its casHash, the new one does not back it, and some
   ACTIVE entry with that casHash is not written anew.
   */
  predicate Orphans(st: Records, cert: Certified, entryToo: bool) {
    var f := FindKey(st.certs, KeyOf(cert));
    && f.Some? && OnlyBacking(st.certs, f.value)
    && !(cert.promotion == Active && cert.casHash == st.certs[f.value].casHash)
    && exists i :: 0 <= i < |st.catalog| && st.catalog[i].promotion == Active
                   && st.catalog[i].casHash == st.certs[f.value].casHash && !Rewrites(st, cert, entryToo, i)
  }

  predicate BackedByOther(certs: seq<Certified>, f: Option<nat>, cas: string) {
    exists j :: 0 <= j < |certs| && Some(j) != f && certs[j].promotion == Active && certs[j].casHash == cas
  }

  lemma UpsertBacks(certs: seq<Certified>, c: Certified, now: nat, cas: string)
    ensures BackedBySome(Upsert(certs, c, now), cas)
            <==> (c.promotion == Active && c.casHash == cas) || BackedByOther(certs, FindKey(certs, KeyOf(c)), cas)
  {
    hide SameKey;
    var f, next := FindKey(certs, KeyOf(c)), Upsert(certs, c, now);
    var at := if f.Some? then f.value else |certs|;
    assert next[at] == Stamped(c, now);
    assert forall j :: 0 <= j < |certs| && Some(j) != f ==> next[j] == certs[j];
    if BackedByOther(certs, f, cas) {
      var j :| 0 <= j < |certs| && Some(j) != f && certs[j].promotion == Active && certs[j].casHash == cas;
      assert next[j].promotion == Active && next[j].casHash == cas;
    }
  }

  /** What loses its backing: the casHash of the certification replaced, if that was the only one behind it. */
  lemma LosesBacking(certs: seq<Certified>, c: Certified, now: nat, cas: string)
    requires BackedBySome(certs, cas)
    ensures var f := FindKey(certs, KeyOf(c));
            BackedBySome(Upsert(certs, c, now), cas)
            <==> !(f.Some? && OnlyBacking(certs, f.value) && certs[f.value].casHash == cas
                   && !(c.promotion == Active && c.casHash == cas))
  {
    hide Upsert, FindKey, BackedBySome;
    UpsertBacks(certs, c, now, cas);
    var f := FindKey(certs, KeyOf(c));
    if !BackedByOther(certs, f, cas) {
      SoleBacking(certs, f, cas);
    } else if f.Some? {
      assert !(OnlyBacking(certs, f.value) && certs[f.value].casHash == cas);
    }
  }

  lemma SoleBacking(certs: seq<Certified>, f: Option<nat>, cas: string)
    requires BackedBySome(certs, cas) && !BackedByOther(certs, f, cas)
    ensures f.Some? && f.value < |certs| && certs[f.value].casHash == cas && OnlyBacking(certs, f.value)
  {
    var j :| 0 <= j < |certs| && certs[j].promotion == Active && certs[j].casHash == cas;
    assert f == Some(j);
  }

  lemma EntriesAfter(es: seq<CatalogEntry>, e: CatalogEntry, now: nat)
    ensures var next, f := UpsertEntry(es, e, now), FindEntry(es, e.casHash);
            && |es| <= |next|
            && (forall i :: 0 <= i < |next| ==>
                  if f == Some(i) || |es| <= i then next[i] == StampedEntry(e, now) else next[i] == es[i])
  {
  }

  /**
   Whether one certification keeps every ACTIVE catalog entry backed by an ACTIVE certification: exactly unless
   it orphans one.
   */
  lemma DecidedKeepsBackedExactly(st: Records, d: Drive, look: Lookups, now: nat, entryToo: bool)
    requires Backed(st)
    ensures Backed(Decided(st, d, look, now, entryToo)) <==> !Orphans(st, CertOf(d, look, now), entryToo)
  {
    hide CertOf, Upsert, UpsertEntry, OnlyBacking, BackedBySome;
    var cert, next := CertOf(d, look, now), Decided(st, d, look, now, entryToo);
    var writes := entryToo && cert.casHash != "";
    if writes { EntriesAfter(st.catalog, EntryOf(d.check, cert, look), now); }
    UpsertBacks(st.certs, cert, now, cert.casHash);
    forall i | 0 <= i < |st.catalog| && st.catalog[i].promotion == Active
      ensures var f := FindKey(st.certs, KeyOf(cert));
              BackedBySome(next.certs, st.catalog[i].casHash)
              <==> !(f.Some? && OnlyBacking(st.certs, f.value) && st.certs[f.value].casHash == st.catalog[i].casHash
                     && !(cert.promotion == Active && cert.casHash == st.catalog[i].casHash))
    {
      LosesBacking(st.certs, cert, now, st.catalog[i].casHash);
    }
    forall i | 0 <= i < |next.catalog| && !(i < |st.catalog| && !Rewrites(st, cert, entryToo, i))
      ensures next.catalog[i].promotion == Active ==> BackedBySome(next.certs, next.catalog[i].casHash)
    {
      assert writes && next.catalog[i] == StampedEntry(EntryOf(d.check, cert, look), now);
    }
    if Orphans(st, cert, entryToo) {
      var i :| 0 <= i < |st.catalog| && st.catalog[i].promotion == Active
               && st.catalog[i].casHash == st.certs[FindKey(st.certs, KeyOf(cert)).value].casHash
               && !Rewrites(st, cert, entryToo, i);
      assert next.catalog[i] == st.catalog[i];
    }
  }

  /** The certification this intake decides on, unless it stops before. */
  function Certifying(st: Records, intake: Intake): Option<(Records, Drive)> {
    match Taken(st, intake.item)
    case None => None
    case Some(held) =>
      match DriveOf(held, intake.item)
      case None => None
      case Some(d) =>
        if intake.stored.save == Synced && Named(d.check) && d.check.imageDigest != "" then Some((held, d)) else None
  }

  predicate Undisturbed(h: Host<Records>, intake: Intake) {
    h.seen == h.file && intake.stored.theirs.None? && intake.saves.cert.theirs.None? && intake.saves.entry.theirs.None?
  }

  /**
   One intake, no other Store writing meanwhile, keeps the catalog backed exactly unless the certification it
   decides on orphans an entry; its own entry is written only if the certification was saved.
   */
  lemma IntakeKeepsBackedExactly(h: Host<Records>, intake: Intake)
    requires Backed(h.mem) && Undisturbed(h, intake)
    ensures var decides := Certifying(h.mem, intake);
            Backed(Step(h, intake).mem)
            <==> !(decides.Some? && Orphans(decides.value.0, CertOf(decides.value.1, intake.look, intake.now),
                                            intake.saves.cert.save == Synced))
  {
    hide Backed, Orphans, DriveOf, Decided, CertOf;
    var taken := Taken(h.mem, intake.item);
    if taken.Some? {
      var held := taken.value;
      assert Backed(held) by { SameCatalog(h.mem, held); }
      var d := DriveOf(held, intake.item);
      if d.Some? {
        DecidedKeepsBackedExactly(held, d.value, intake.look, intake.now, false);
        DecidedKeepsBackedExactly(held, d.value, intake.look, intake.now, true);
        NoEntryWithoutCas(held, d.value, intake.look, intake.now);
      }
    }
  }

  lemma SameCatalog(a: Records, b: Records)
    requires a.certs == b.certs && a.catalog == b.catalog
    ensures Backed(a) == Backed(b)
  {
  }

  lemma NoEntryWithoutCas(st: Records, d: Drive, look: Lookups, now: nat)
    ensures CertOf(d, look, now).casHash == "" ==> Decided(st, d, look, now, true) == Decided(st, d, look, now, false)
  {
  }

  const CLEAN := Writing<Records>.Writing(None, Synced)
  const NOTHING_STORED := Records(Evidence([], []), [], [])

  lemma CleanCheckIn(st: Records, c: Check, look: Lookups, now: nat)
    requires CertifiesOnCheck(c) && Named(c) && c.imageDigest != ""
    requires c.checkId != "" && GetCheck(st.evidence.checks, c.checkId).None?
    ensures var held := st.(evidence := st.evidence.(checks := st.evidence.checks + [c]));
            var drive := Drive(c, Latest(ScansOf(st.evidence.scans, c.imageDigest)));
            Step(Start(st), Intake(CheckItem(c), CLEAN, look, now, Saves(CLEAN, CLEAN)))
            == Start(Decided(held, drive, look, now, true))
  {
    hide Decided, Latest, ScansOf, CertOf, GetCheck;
    var held := st.(evidence := st.evidence.(checks := st.evidence.checks + [c]));
    var drive := Drive(c, Latest(ScansOf(st.evidence.scans, c.imageDigest)));
    assert CertifiesOnCheck(c) ==> c.validationStatus == SUCCEEDED;
    assert DriveOf(held, CheckItem(c)) == Some(drive);
    NoEntryWithoutCas(held, drive, look, now);
  }

  lemma FirstDecision(ev: Evidence, d: Drive, look: Lookups, now: nat)
    requires CertOf(d, look, now).casHash != ""
    ensures var cert := CertOf(d, look, now);
            Decided(Records(ev, [], []), d, look, now, true)
            == Records(ev, [Stamped(cert, now)], [StampedEntry(EntryOf(d.check, cert, look), now)])
  {
    hide CertOf, EntryOf;
  }

  lemma ReplacingDecision(ev: Evidence, c: Certified, e: CatalogEntry, d: Drive, look: Lookups, now: nat)
    requires var cert := CertOf(d, look, now);
             SameKey(KeyOf(c), KeyOf(cert)) && e.casHash != cert.casHash && cert.casHash != ""
    ensures var cert := CertOf(d, look, now);
            Decided(Records(ev, [c], [e]), d, look, now, true)
            == Records(ev, [Stamped(cert, now)], [e, StampedEntry(EntryOf(d.check, cert, look), now)])
  {
    hide CertOf, EntryOf, SameKey;
    EntryCas(d.check, CertOf(d, look, now), look);
    FindKeyIs([c], KeyOf(CertOf(d, look, now)), 0);
    assert [c][0 := Stamped(CertOf(d, look, now), now)] == [Stamped(CertOf(d, look, now), now)];
  }

  /**
   Two checks of one tool and platform on images with different casHashes, everything saved: the second moves
   the one certification to its own casHash, and the ACTIVE entry of the first is left with none.
   */
  lemma MovedCertificationOrphansEntry(a: Check, b: Check, look: Lookups, now: nat, x: string, y: string)
    requires CertifiesOnCheck(a) && Named(a) && CertifiesOnCheck(b) && Named(b)
    requires a.checkId != "" && b.checkId != "" && a.checkId != b.checkId
    requires a.toolSpecDigest == b.toolSpecDigest != "" && a.platform == b.platform != ""
    requires a.imageDigest != "" && b.imageDigest != ""
    requires look.casHash(a.imageDigest) == Some(x) && look.casHash(b.imageDigest) == Some(y)
    requires x != y && x != "" && y != ""
    ensures var once := Step(Start(NOTHING_STORED), Intake(CheckItem(a), CLEAN, look, now, Saves(CLEAN, CLEAN)));
            var twice := Step(once, Intake(CheckItem(b), CLEAN, look, now, Saves(CLEAN, CLEAN)));
            && Backed(once.mem) && twice == Start(twice.mem) && !Backed(twice.mem)
            && twice.mem.catalog[0].promotion == Active && twice.mem.catalog[0].casHash == x
            && |twice.mem.certs| == 1 && twice.mem.certs[0].promotion == Active && twice.mem.certs[0].casHash == y
  {
    hide Ineligibility, Step, CLEAN, Decided, EntryOf, Latest, Backed;
    var certA, certB := CertOf(Drive(a, None), look, now), CertOf(Drive(b, None), look, now);
    var entryA, entryB := EntryOf(a, certA, look), EntryOf(b, certB, look);
    EntryCas(a, certA, look);
    NoLatest();
    assert [] + [a] == [a] && [a] + [b] == [a, b];
    CleanCheckIn(NOTHING_STORED, a, look, now);
    FirstDecision(Evidence([a], []), Drive(a, None), look, now);
    var once := Records(Evidence([a], []), [Stamped(certA, now)], [StampedEntry(entryA, now)]);
    CleanCheckIn(once, b, look, now);
    ReplacingDecision(Evidence([a, b], []), once.certs[0], once.catalog[0], Drive(b, None), look, now);
    var twice := Records(Evidence([a, b], []), [Stamped(certB, now)], [once.catalog[0], StampedEntry(entryB, now)]);
    assert Backed(once) && !Backed(twice) by { OneBacks(once); OneBacks(twice); }
  }

  lemma OneBacks(st: Records)
    requires |st.certs| == 1 && |st.catalog| > 0 && st.certs[0].promotion == st.catalog[0].promotion == Active
    ensures |st.catalog| == 1 && st.certs[0].casHash == st.catalog[0].casHash ==> Backed(st)
    ensures st.certs[0].casHash != st.catalog[0].casHash ==> !Backed(st)
  {
    assert st.certs[0].casHash == st.catalog[0].casHash ==> BackedBySome(st.certs, st.catalog[0].casHash);
  }

  lemma NoLatest()
    ensures Latest([]) == None
  {
  }

  lemma EntryCas(check: Check, cert: Certified, look: Lookups)
    ensures EntryOf(check, cert, look).casHash == cert.casHash && EntryOf(check, cert, look).promotion == cert.promotion
  {
  }

  // ── what intake reports ─────────────────────────────────────────────────────

  /** The handler reports "certified" when the evaluation returned no error and the check certifies. */
  predicate ReportsCertified(h: Host<Records>, check: Check, look: Lookups, now: nat, saves: Saves) {
    CertifiesOnCheck(check) && Evaluate(h, DriveOfCheck(h.mem, check), look, now, saves).error.None?
  }

  /**
   The report looks at the check alone. A reported certification is ACTIVE exactly when the newest scan of the
   image does not block it; otherwise what was stored, under the key just reported, is RETRACTED. Either way the
   file is synced.
   */
  lemma ReportedCertifiedIsActiveExactly(h: Host<Records>, check: Check, look: Lookups, now: nat, saves: Saves)
    requires ReportsCertified(h, check, look, now, saves)
    ensures var drive := Drive(check, Latest(ScansOf(h.mem.evidence.scans, check.imageDigest)));
            var after := Evaluate(h, DriveOfCheck(h.mem, check), look, now, saves).host;
            var i := FindKey(after.mem.certs, KeyOf(CertOf(drive, look, now)));
            && after == Start(after.mem)
            && i.Some? && after.mem.certs[i.value].checkId == check.checkId
            && (after.mem.certs[i.value].promotion == Active <==> !Blocks(drive.scan))
  {
    hide Ineligibility, Latest, ScansOf, UpsertEntry;
    var st, drive := h.mem, Drive(check, Latest(ScansOf(h.mem.evidence.scans, check.imageDigest)));
    var cert := CertOf(drive, look, now);
    var f := FindKey(st.certs, KeyOf(cert));
    FindKeyIs(Upsert(st.certs, cert, now), KeyOf(cert), if f.Some? then f.value else |st.certs|);
  }

  /** A check reported as certified while the scan stored before it blocks its image: what is kept is RETRACTED. */
  lemma BlockedCheckIsReportedCertified(c: Check, s: Scan, look: Lookups, now: nat)
    requires CertifiesOnCheck(c) && Named(c) && c.imageDigest != ""
    requires s.imageDigest == c.imageDigest && s.policyResult == BLOCKED
    ensures var h, saves := Start(Records(Evidence([c], [s]), [], [])), Saves(CLEAN, CLEAN);
            var after := Evaluate(h, DriveOfCheck(h.mem, c), look, now, saves).host;
            && ReportsCertified(h, c, look, now, saves)
            && |after.mem.certs| == 1 && after.mem.certs[0].checkId == c.checkId
            && after.mem.certs[0].promotion == Retracted
  {
    hide Ineligibility, UpsertEntry;
    var h := Start(Records(Evidence([c], [s]), [], []));
    assert ScansOf([s], c.imageDigest) == [s] + ScansOf([], c.imageDigest) == [s];
    assert [s][..0] == [] && Latest([s]) == Some(s);
    var cert := CertOf(Drive(c, Some(s)), look, now);
    assert Upsert([], cert, now) == [Stamped(cert, now)];
  }
}
