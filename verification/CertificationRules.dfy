/**
 What certification admits and writes, spelled out from the fields of the records: which checks and scans certify,
 what proof an ACTIVE certification has on file at every moment, and what intake and the startup pass write.
 */
module CertificationRules {
  import opened SharedFile
  import opened Wrappers
  import opened Certification
  import opened CertificationIntake
  import opened CertificationHandlers

  // ── admission ───────────────────────────────────────────────────────────────

  /** A succeeded L5-a record with a validation hash, all outputs present and a passed contract. */
  predicate Observed(c: Check) {
    && c.validationStatus == "succeeded"
    && c.stage == "L5A"
    && c.validationHash != ""
    && c.contract.Some? && c.contract.value.allOutputsPresent
    && (c.contract.value.result == "pass" || c.contract.value.result == "passed")
  }

  predicate Closes(s: Scan) {
    s.terminal && s.stage == "L5B"
  }

  /** A check is admissible exactly when it is observed, and certifies at intake exactly when it is terminal too. */
  lemma AdmissionRule(c: Check)
    ensures Admissible(c) <==> Observed(c)
    ensures CertifiesOnCheck(c) <==> Observed(c) && c.terminal
  {
  }

  /** A check whose outputs were not observed certifies nothing: neither its own intake nor any scan's uses it. */
  lemma FailedContractCertifiesNothing(h: Host<Records>, c: Check, look: Lookups, now: nat, saves: Saves, s: Scan)
    requires c.contract == Some(Contract(false, "fail"))
    ensures !CertifiesOnCheck(c)
    ensures Evaluate(h, DriveOfCheck(h.mem, c), look, now, saves) == Attempt(h, None)
    ensures var d := DriveOfScan(h.mem, s); d.Some? ==> d.value.check != c
  {
    hide ChecksOf;
    assert "fail"[0] != "pass"[0];
  }

  // ── proof on file ───────────────────────────────────────────────────────────

  /** An observed check with the certification's check id is stored, and if it is not terminal, a terminal L5-b scan. */
  predicate HasProof(ev: Evidence, cert: Certified) {
    exists i :: 0 <= i < |ev.checks| && ev.checks[i].checkId == cert.checkId != "" && Observed(ev.checks[i])
                && (ev.checks[i].terminal || HasClosingScan(ev, cert))
  }

  predicate HasClosingScan(ev: Evidence, cert: Certified) {
    exists k :: 0 <= k < |ev.scans| && ev.scans[k].scanId == cert.scanId != "" && Closes(ev.scans[k])
  }

  /** The stored check and scan with these ids are the first ones under them. */
  predicate IsCheckOf(cs: seq<Check>, id: string, i: nat) {
    i < |cs| && cs[i].checkId == id && forall j :: 0 <= j < i ==> cs[j].checkId != id
  }

  predicate IsScanOf(ss: seq<Scan>, id: string, i: nat) {
    i < |ss| && ss[i].scanId == id && forall j :: 0 <= j < i ==> ss[j].scanId != id
  }

  predicate NoScanOf(ss: seq<Scan>, id: string) {
    forall j :: 0 <= j < |ss| ==> ss[j].scanId != id
  }

  lemma {:induction false} CheckIsFound(cs: seq<Check>, id: string) returns (i: nat)
    ensures GetCheck(cs, id).None? ==> forall j :: 0 <= j < |cs| ==> cs[j].checkId != id
    ensures GetCheck(cs, id).Some? ==> IsCheckOf(cs, id, i) && GetCheck(cs, id) == Some(cs[i])
    decreases |cs|
  {
    i := 0;
    if cs != [] && cs[0].checkId != id {
      var rest := CheckIsFound(cs[1..], id);
      i := rest + 1;
      assert forall j :: 1 <= j < |cs| ==> cs[j] == cs[1..][j - 1];
    }
  }

  lemma {:induction false} ScanIsFound(ss: seq<Scan>, id: string) returns (i: nat)
    ensures GetScan(ss, id).None? ==> forall j :: 0 <= j < |ss| ==> ss[j].scanId != id
    ensures GetScan(ss, id).Some? ==> IsScanOf(ss, id, i) && GetScan(ss, id) == Some(ss[i])
    decreases |ss|
  {
    i := 0;
    if ss != [] && ss[0].scanId != id {
      var rest := ScanIsFound(ss[1..], id);
      i := rest + 1;
      assert forall j :: 1 <= j < |ss| ==> ss[j] == ss[1..][j - 1];
    }
  }

  /**
   A certification is proven exactly when the first stored check under its check id is observed and is terminal,
   or the first stored scan under its scan id is a terminal L5-b one.
   */
  lemma ProofRule(ev: Evidence, cert: Certified, i: nat, k: nat)
    ensures cert.checkId == "" ==> !Proven(ev, cert)
    ensures (forall j :: 0 <= j < |ev.checks| ==> ev.checks[j].checkId != cert.checkId) ==> !Proven(ev, cert)
    ensures cert.checkId != "" && IsCheckOf(ev.checks, cert.checkId, i) ==>
              && (Proven(ev, cert) ==> Observed(ev.checks[i]))
              && (Observed(ev.checks[i]) && ev.checks[i].terminal ==> Proven(ev, cert))
              && (Observed(ev.checks[i]) && !ev.checks[i].terminal && cert.scanId == "" ==> !Proven(ev, cert))
              && (!ev.checks[i].terminal && NoScanOf(ev.scans, cert.scanId) ==> !Proven(ev, cert))
              && (Observed(ev.checks[i]) && !ev.checks[i].terminal && cert.scanId != "" ==>
                    IsScanOf(ev.scans, cert.scanId, k) ==> (Proven(ev, cert) <==> Closes(ev.scans[k])))
  {
    hide Ineligibility, Observed, GetCheck, GetScan, IsCheckOf, IsScanOf, NoScanOf;
    CheckAt(ev.checks, cert.checkId, i);
    ScanAt(ev.scans, cert.scanId, k);
    if i < |ev.checks| { AdmissionRule(ev.checks[i]); }
  }

  lemma CheckAt(cs: seq<Check>, id: string, i: nat)
    ensures (forall j :: 0 <= j < |cs| ==> cs[j].checkId != id) ==> GetCheck(cs, id).None?
    ensures IsCheckOf(cs, id, i) ==> i < |cs| && GetCheck(cs, id) == Some(cs[i])
  {
    hide GetCheck;
    var at := CheckIsFound(cs, id);
  }

  lemma ScanAt(ss: seq<Scan>, id: string, k: nat)
    ensures NoScanOf(ss, id) ==> GetScan(ss, id).None?
    ensures IsScanOf(ss, id, k) ==> k < |ss| && GetScan(ss, id) == Some(ss[k])
  {
    hide GetScan;
    var at := ScanIsFound(ss, id);
  }

  lemma ProvenHasProof(ev: Evidence, cert: Certified)
    requires Proven(ev, cert)
    ensures HasProof(ev, cert)
  {
    hide Ineligibility, Observed;
    var at := CheckIsFound(ev.checks, cert.checkId);
    var scan := ScanIsFound(ev.scans, cert.scanId);
    AdmissionRule(ev.checks[at]);
    if !ev.checks[at].terminal { assert Closes(ev.scans[scan]); }
  }

  ghost predicate ActiveHaveProof(r: Records) {
    forall i :: 0 <= i < |r.certs| && r.certs[i].promotion == Active ==> HasProof(r.evidence, r.certs[i])
  }

  lemma ActivesHaveProof(r: Records)
    requires ActiveAreProven(r.evidence, r.certs)
    ensures ActiveHaveProof(r)
  {
    hide Proven, HasProof;
    forall i | 0 <= i < |r.certs| && r.certs[i].promotion == Active ensures HasProof(r.evidence, r.certs[i]) {
      ProvenHasProof(r.evidence, r.certs[i]);
    }
  }

  /**
   After the startup pass and any intakes, reloads, crashes and other Stores' saves, every ACTIVE certification in
   memory, in the file and in every content a crash may bring back names a stored succeeded L5-a check with a hash,
   all outputs and a passed contract, and a stored terminal L5-b scan if that check is not terminal.
   */
  lemma ActiveAlwaysHaveProof(st: Records, look: Lookups, now: nat, es: seq<Event>)
    requires GoodIds(st.evidence) && UnprovenComeFirst(st.evidence, st.certs)
    requires forall i :: 0 <= i < |es| ==> OthersSound(es[i])
    ensures forall r :: r in Contents(After(Passed(Start(st), look, now), es)) ==> ActiveHaveProof(r)
  {
    hide GoodIds, UnprovenComeFirst, OthersSound, ActiveAreProven, ActiveHaveProof, Passed, After, Contents;
    EveryActiveCertificationIsProven(st, look, now, es);
    forall r | r in Contents(After(Passed(Start(st), look, now), es)) ensures ActiveHaveProof(r) {
      ActivesHaveProof(r);
    }
  }

  /** The same while handlers overlap, at every moment of the run, exactly as long as what they write is proven. */
  lemma {:induction false} HandlersAlwaysHaveProof(s: Server, ms: seq<Move>, n: nat)
    requires AllSound(s.host) && forall i :: 0 <= i < |ms| ==> ForeignersSound(ms[i])
    requires ProvenWhenWritten(s, ms) && n <= |ms|
    ensures forall r :: r in Contents(ServeAll(s, ms[..n]).host) ==> ActiveHaveProof(r)
    decreases n
  {
    hide ForeignersSound, Serve, ActiveHaveProof, ProvesIt, Contents, ActiveAreProven;
    if n == 0 {
      assert ms[..0] == [];
      forall r | r in Contents(s.host) ensures ActiveHaveProof(r) {
        assert Sound(r);
        ActivesHaveProof(r);
      }
    } else {
      ServeIsSoundExactly(s, ms[0]);
      assert ms[..n][0] == ms[0] && ms[..n][1..] == ms[1..][..n - 1];
      HandlersAlwaysHaveProof(Serve(s, ms[0]), ms[1..], n - 1);
    }
  }

  // ── what drives a certification ─────────────────────────────────────────────

  predicate NeverScanned(ss: seq<Scan>, image: string) {
    forall j :: 0 <= j < |ss| ==> ss[j].imageDigest != image
  }

  predicate IsNewestScanOf(ss: seq<Scan>, image: string, k: nat) {
    && k < |ss| && ss[k].imageDigest == image
    && (forall j :: 0 <= j < |ss| && ss[j].imageDigest == image ==> ss[j].scannedAt <= ss[k].scannedAt)
    && (forall j :: 0 <= j < k && ss[j].imageDigest == image ==> ss[j].scannedAt < ss[k].scannedAt)
  }

  lemma {:induction false} NewestScanIs(ss: seq<Scan>, image: string, k: nat)
    ensures NeverScanned(ss, image) ==> Latest(ScansOf(ss, image)) == None
    ensures IsNewestScanOf(ss, image, k) ==> Latest(ScansOf(ss, image)) == Some(ss[k])
    decreases |ss|
  {
    hide Latest, ScansOf;
    if ss == [] {
      NoScans(image);
      NoLatest();
    } else {
      var last := |ss| - 1;
      ScansOfLast(ss, image);
      NewestScanIs(ss[..last], image, k);
      if ss[last].imageDigest == image {
        LatestAppend(ScansOf(ss[..last], image), ss[last]);
        if IsNewestScanOf(ss, image, k) {
          if k == last { EarlierScansAreOlder(ss, image); } else { assert IsNewestScanOf(ss[..last], image, k); }
        }
      } else {
        assert ScansOf(ss, image) == ScansOf(ss[..last], image);
        assert IsNewestScanOf(ss, image, k) ==> IsNewestScanOf(ss[..last], image, k);
      }
    }
  }

  lemma EarlierScansAreOlder(ss: seq<Scan>, image: string)
    requires ss != [] && IsNewestScanOf(ss, image, |ss| - 1)
    ensures var before := Latest(ScansOf(ss[..|ss| - 1], image));
            before.Some? ==> before.value.scannedAt < ss[|ss| - 1].scannedAt
  {
    ScansOfAre(ss[..|ss| - 1], image);
  }

  lemma {:induction false} ScansOfAre(ss: seq<Scan>, image: string)
    ensures forall s :: s in ScansOf(ss, image) <==> s in ss && s.imageDigest == image
    decreases |ss|
  {
    if ss != [] {
      ScansOfAre(ss[1..], image);
      assert ss == [ss[0]] + ss[1..];
    }
  }

  lemma {:induction false} ScansOfLast(ss: seq<Scan>, image: string)
    requires ss != []
    ensures var last := |ss| - 1;
            ScansOf(ss, image) == ScansOf(ss[..last], image) + if ss[last].imageDigest == image then [ss[last]] else []
    decreases |ss|
  {
    if |ss| == 1 {
      assert ss[1..] == [] && ss[..0] == [];
    } else {
      ScansOfLast(ss[1..], image);
      assert ss[1..][..|ss| - 2] == ss[..|ss| - 1][1..];
    }
  }

  /**
   An arriving check certifies exactly when it is observed and terminal: with itself and the newest scan of its
   image, the first stored of equally new ones, or none if the image was never scanned.
   */
  lemma CheckDrives(st: Records, c: Check, k: nat)
    ensures DriveOfCheck(st, c).Some? <==> Observed(c) && c.terminal
    ensures Observed(c) && c.terminal && NeverScanned(st.evidence.scans, c.imageDigest) ==>
              DriveOfCheck(st, c) == Some(Drive(c, None))
    ensures Observed(c) && c.terminal && IsNewestScanOf(st.evidence.scans, c.imageDigest, k) ==>
              DriveOfCheck(st, c) == Some(Drive(c, Some(st.evidence.scans[k])))
  {
    hide Latest, ScansOf, Ineligibility;
    AdmissionRule(c);
    NewestScanIs(st.evidence.scans, c.imageDigest, k);
  }

  predicate IsFirstObserved(cs: seq<Check>, image: string, i: nat) {
    && i < |cs| && cs[i].imageDigest == image && Observed(cs[i])
    && forall j :: 0 <= j < i ==> !(cs[j].imageDigest == image && Observed(cs[j]))
  }

  lemma {:induction false} FirstObservedIs(cs: seq<Check>, image: string, i: nat)
    ensures (forall j :: 0 <= j < |cs| ==> !(cs[j].imageDigest == image && Observed(cs[j])))
              ==> FirstAdmissible(ChecksOf(cs, image)) == None
    ensures IsFirstObserved(cs, image, i) ==> FirstAdmissible(ChecksOf(cs, image)) == Some(cs[i])
    decreases |cs|
  {
    hide Ineligibility, Observed, ChecksOf, FirstAdmissible;
    if cs == [] {
      NoneAdmissible(image);
    } else {
      AdmissionRule(cs[0]);
      AdmissibleStep(cs, image);
      FirstObservedIs(cs[1..], image, if i == 0 then 0 else i - 1);
    }
  }

  /**
   An arriving scan certifies exactly when it is a terminal L5-b one or its policy blocks, and an observed check of
   its image is stored: the first of them, with this scan.
   */
  lemma ScanDrives(st: Records, s: Scan, i: nat)
    ensures !Closes(s) && s.policyResult != "blocked" ==> DriveOfScan(st, s) == None
    ensures (forall j :: 0 <= j < |st.evidence.checks| ==>
               !(st.evidence.checks[j].imageDigest == s.imageDigest && Observed(st.evidence.checks[j])))
            ==> DriveOfScan(st, s) == None
    ensures (Closes(s) || s.policyResult == "blocked") && IsFirstObserved(st.evidence.checks, s.imageDigest, i)
            ==> DriveOfScan(st, s) == Some(Drive(st.evidence.checks[i], Some(s)))
  {
    hide ChecksOf, FirstAdmissible, Observed;
    FirstObservedIs(st.evidence.checks, s.imageDigest, i);
  }

  // ── what a certification writes ─────────────────────────────────────────────

  /** A check is stored under a new, non-empty id, and then drives only if it succeeded; scans likewise. */
  lemma IntakeStores(st: Records, item: Item)
    ensures match item
            case CheckItem(c) =>
              && (Taken(st, item).Some? <==>
                    c.checkId != "" && forall j :: 0 <= j < |st.evidence.checks| ==>
                      st.evidence.checks[j].checkId != c.checkId)
              && (Taken(st, item).Some? ==>
                    Taken(st, item).value ==
                    Records(Evidence(st.evidence.checks + [c], st.evidence.scans), st.certs, st.catalog))
              && DriveOf(st, item) == (if c.validationStatus == "succeeded" then DriveOfCheck(st, c) else None)
            case ScanItem(s) =>
              && (Taken(st, item).Some? <==>
                    s.scanId != "" && forall j :: 0 <= j < |st.evidence.scans| ==>
                      st.evidence.scans[j].scanId != s.scanId)
              && (Taken(st, item).Some? ==>
                    Taken(st, item).value ==
                    Records(Evidence(st.evidence.checks, st.evidence.scans + [s]), st.certs, st.catalog))
              && DriveOf(st, item) == DriveOfScan(st, s)
  {
    if item.CheckItem? {
      var at := CheckIsFound(st.evidence.checks, item.check.checkId);
    } else {
      var at := ScanIsFound(st.evidence.scans, item.scan.scanId);
    }
  }

  /**
   A handler stores what came in and goes on to certify, from the records it has then in memory, only if that was
   saved; it does nothing with an id that is empty or used.
   */
  lemma HandlerRule(h: Host<Records>, intake: Intake)
    ensures var held := Taken(h.mem, intake.item);
            && (held.None? ==> Step(h, intake) == h)
            && (held.Some? ==>
                  var appended := Written(h, held.value, intake.stored);
                  && (!appended.ok ==> Step(h, intake) == appended.host)
                  && (appended.ok ==>
                        var d := DriveOf(held.value, intake.item);
                        && (d.None? ==> Step(h, intake) == Start(held.value))
                        && (d.Some? ==> Step(h, intake) == Certify(Start(held.value), d.value, intake.look, intake.now,
                                                                   intake.saves).host)))
  {
    hide Certify, DriveOf, Taken;
    if Taken(h.mem, intake.item).Some? { WrittenIsDurable(h, Taken(h.mem, intake.item).value, intake.stored); }
  }

  /**
   What one move of overlapping handlers does. An append that is saved lets its handler read; a read takes it on if
   the evidence drives a certification; a certification is written if the check is named, and its entry follows if
   that was saved and the image has a casHash. The others are another Store's write, a save for another section, a
   reload, and a death that leaves no handler.
   */
  lemma HandlerMoveRule(s: Server, m: Move)
    ensures match m
            case Appends(item, w) =>
              if Taken(s.host.mem, item).None? then Serve(s, m) == s
              else
                var done := Written(s.host, Taken(s.host.mem, item).value, w);
                Serve(s, m) == Server(done.host, s.stages + if done.ok then {Stored(item)} else {})
            case Reads(item) =>
              var d := DriveOf(s.host.mem, item);
              var on := Stored(item) in s.stages && d.Some?;
              Serve(s, m) == Server(s.host, s.stages - {Stored(item)} + if on then {Driven(d.value)} else {})
            case Certifies(d, look, now, w) =>
              var left := s.stages - {Driven(d)};
              if Driven(d) in s.stages && d.check.toolName != "" && d.check.version != "" && d.check.imageDigest != ""
              then
                var done := Written(s.host, Decided(s.host.mem, d, look, now, false), w);
                var cert := CertOf(d, look, now);
                Serve(s, m) == Server(done.host, left + if done.ok && cert.casHash != "" then
                                                          {Certifying(d.check, cert)} else {})
              else Serve(s, m) == Server(s.host, left)
            case Lists(check, cert, look, now, w) =>
              var left := s.stages - {Certifying(check, cert)};
              if Certifying(check, cert) in s.stages then
                var listed := UpsertEntry(s.host.mem.catalog, EntryOf(check, cert, look), now);
                Serve(s, m) == Server(Written(s.host, s.host.mem.(catalog := listed), w).host, left)
              else Serve(s, m) == Server(s.host, left)
            case Foreigner(theirs) => Serve(s, m) == Server(Overwritten(s.host, theirs.to, theirs.synced), s.stages)
            case Resaves(save) => Serve(s, m) == Server(Save(s.host, save).host, s.stages)
            case Reloads => Serve(s, m) == Server(Reloaded(s.host), s.stages)
            case Dies(to) => Serve(s, m) == if to in s.host.exposed then Server(Start(to), {}) else s
  {
    hide Taken, DriveOf, Decided, Written, CertOf, EntryOf, UpsertEntry;
  }

  /** The certification a check and a scan make: ACTIVE unless the scan blocks. */
  predicate IsCertification(cert: Certified, d: Drive, look: Lookups, now: nat) {
    && cert.imageDigest == d.check.imageDigest
    && cert.toolSpecDigest == d.check.toolSpecDigest
    && cert.platform == d.check.platform
    && cert.toolName == d.check.toolName
    && cert.version == d.check.version
    && (look.casHash(d.check.imageDigest) == None ==> cert.casHash == "")
    && (look.casHash(d.check.imageDigest) != None ==> look.casHash(d.check.imageDigest) == Some(cert.casHash))
    && (cert.promotion == Retracted <==> d.scan.Some? && d.scan.value.policyResult == "blocked")
    && (cert.promotion == Active <==> !(d.scan.Some? && d.scan.value.policyResult == "blocked"))
    && cert.certifiedAt == now
    && cert.checkId == d.check.checkId
    && (d.scan.None? ==> cert.scanId == "")
    && (d.scan.Some? ==> cert.scanId == d.scan.value.scanId)
  }

  predicate IsListing(e: CatalogEntry, check: Check, cert: Certified, look: Lookups) {
    && e.casHash == cert.casHash
    && e.toolName == check.toolName
    && e.version == check.version
    && e.stableRef == check.toolName + "@" + check.version
    && e.imageDigest == check.imageDigest
    && (look.imageRef(check.imageDigest) == None ==> e.imageRef == "")
    && (look.imageRef(check.imageDigest) != None ==> look.imageRef(check.imageDigest) == Some(e.imageRef))
    && e.displayLabel == check.toolName
    && e.promotion == cert.promotion
    && e.certifiedAt == cert.certifiedAt
    && e.validationHash == check.validationHash
  }

  /** The certification that answers to a key: both fully keyed and of one tool and platform, or of one image. */
  predicate SharesKey(a: Certified, b: Certified) {
    if a.toolSpecDigest != "" && a.platform != "" && b.toolSpecDigest != "" && b.platform != ""
    then a.toolSpecDigest == b.toolSpecDigest && a.platform == b.platform
    else a.imageDigest == b.imageDigest
  }

  /** The list with this certification in the place of the first one under its key, or at the end. */
  predicate IsUpserted(certs: seq<Certified>, cert: Certified, after: seq<Certified>) {
    || (after == certs + [cert] && forall j :: 0 <= j < |certs| ==> !SharesKey(certs[j], cert))
    || (exists i :: 0 <= i < |certs| && SharesKey(certs[i], cert) && after == certs[i := cert]
                    && forall j :: 0 <= j < i ==> !SharesKey(certs[j], cert))
  }

  predicate IsListed(es: seq<CatalogEntry>, e: CatalogEntry, after: seq<CatalogEntry>) {
    || (after == es + [e] && forall j :: 0 <= j < |es| ==> es[j].casHash != e.casHash)
    || (exists i :: 0 <= i < |es| && es[i].casHash == e.casHash && after == es[i := e]
                    && forall j :: 0 <= j < i ==> es[j].casHash != e.casHash)
  }

  /**
   A certification whose saves succeed leaves itself in the place of the first one under its key and, if the image
   has a casHash, a catalog entry with its status in the place of the first one under that casHash; nothing else
   changes, and the file is synced. A check without a name or version, or without an image, writes nothing.
   */
  lemma CertificationLeaves(st: Records, d: Drive, look: Lookups, now: nat)
    returns (cert: Certified, entry: CatalogEntry)
    requires now != 0
    ensures var out := Certify(Start(st), d, look, now, Saves(CLEAN, CLEAN));
            && (out.error == Some(MissingName) <==> d.check.toolName == "" || d.check.version == "")
            && (out.error == Some(EmptyKey) <==>
                  d.check.toolName != "" && d.check.version != "" && d.check.imageDigest == "")
            && (out.error.Some? ==> out.host == Start(st))
            && (out.error.None? ==>
                  && out.host == Start(out.host.mem) && out.host.mem.evidence == st.evidence
                  && IsCertification(cert, d, look, now) && IsUpserted(st.certs, cert, out.host.mem.certs)
                  && (cert.casHash == "" ==> out.host.mem.catalog == st.catalog)
                  && (cert.casHash != "" ==>
                        IsListing(entry, d.check, cert, look) && IsListed(st.catalog, entry, out.host.mem.catalog)))
  {
    cert := CertOf(d, look, now);
    entry := EntryOf(d.check, cert, look);
    UpsertIs(st.certs, cert, now);
    UpsertEntryIs(st.catalog, entry, now);
    hide Upsert, UpsertEntry, IsUpserted, IsListed;
  }

  /** An upsert takes the place of the first record under its key or goes to the end, dated now if it has no date. */
  lemma UpsertIs(certs: seq<Certified>, cert: Certified, now: nat)
    ensures var dated := cert.(certifiedAt := if cert.certifiedAt == 0 then now else cert.certifiedAt);
            IsUpserted(certs, dated, Upsert(certs, cert, now))
  {
    hide FindKey;
    var at := FindKey(certs, KeyOf(cert));
    var dated := cert.(certifiedAt := if cert.certifiedAt == 0 then now else cert.certifiedAt);
    assert forall j :: 0 <= j < |certs| ==> SameKey(KeyOf(certs[j]), KeyOf(cert)) == SharesKey(certs[j], dated);
  }

  /** The same for catalog entries, whose key is the casHash. */
  lemma UpsertEntryIs(es: seq<CatalogEntry>, e: CatalogEntry, now: nat)
    ensures var dated := e.(certifiedAt := if e.certifiedAt == 0 then now else e.certifiedAt);
            IsListed(es, dated, UpsertEntry(es, e, now))
  {
    hide Certification.FindEntry;
    var at := FindEntry(es, e.casHash);
  }

  // ── what the startup pass does ──────────────────────────────────────────────

  /** A pass that finds every ACTIVE certification proven touches nothing; any other leaves what it swept, synced. */
  lemma StartupRule(h: Host<Records>, look: Lookups, now: nat)
    ensures ActiveAreProven(h.mem.evidence, h.mem.certs) ==> Passed(h, look, now) == h
    ensures !ActiveAreProven(h.mem.evidence, h.mem.certs) ==> Passed(h, look, now) == Start(Swept(h.mem, look, now))
  {
    hide Swept, Proven;
    ActiveCertsAre(h.mem.certs);
    NoneUnproven(h.mem.evidence, ActiveCerts(h.mem.certs));
  }

  predicate LosesOne(ev: Evidence, snapshot: seq<Certified>, cas: string) {
    cas != "" && exists j :: 0 <= j < |snapshot| && snapshot[j].casHash == cas && !Proven(ev, snapshot[j])
  }

  predicate IsSurvivor(ev: Evidence, snapshot: seq<Certified>, cas: string, k: nat) {
    && k < |snapshot| && snapshot[k].casHash == cas && Proven(ev, snapshot[k])
    && forall j :: 0 <= j < k ==> !(snapshot[j].casHash == cas && Proven(ev, snapshot[j]))
  }

  lemma {:induction false} SurvivorIs(ev: Evidence, snapshot: seq<Certified>, cas: string, k: nat)
    requires cas != "" && IsSurvivor(ev, snapshot, cas, k)
    ensures Survivor(ev, snapshot, cas) == Some(snapshot[k])
    decreases |snapshot|
  {
    hide Proven;
    if k > 0 { SurvivorIs(ev, snapshot[1..], cas, k - 1); }
  }

  /**
   The pass leaves an ACTIVE entry alone unless an unproven certification has its casHash. Then it retracts the
   entry if no provable one has it; and otherwise, if the entry points at the image of an unproven certification,
   rebuilds it from the first provable one and its check.
   */
  lemma EntryRule(ev: Evidence, snapshot: seq<Certified>, look: Lookups, e: CatalogEntry, k: nat, i: nat)
    ensures var kept := Kept(ev, snapshot, look, e);
            && (!LosesOne(ev, snapshot, e.casHash) ==> kept == None)
            && (LosesOne(ev, snapshot, e.casHash)
                && (forall j :: 0 <= j < |snapshot| ==> !(snapshot[j].casHash == e.casHash && Proven(ev, snapshot[j])))
                ==> kept == Some(e.(promotion := Retracted)))
            && (LosesOne(ev, snapshot, e.casHash) && IsSurvivor(ev, snapshot, e.casHash, k)
                && (forall j :: 0 <= j < |snapshot| ==>
                      !(snapshot[j].imageDigest == e.imageDigest && !Proven(ev, snapshot[j])))
                ==> kept == None)
            && (LosesOne(ev, snapshot, e.casHash) && IsSurvivor(ev, snapshot, e.casHash, k)
                && (exists j :: 0 <= j < |snapshot|
                                && snapshot[j].imageDigest == e.imageDigest && !Proven(ev, snapshot[j]))
                && IsCheckOf(ev.checks, snapshot[k].checkId, i)
                ==>
                kept == Some(CatalogEntry(
                  casHash := e.casHash,
                  toolName := snapshot[k].toolName,
                  version := snapshot[k].version,
                  stableRef := snapshot[k].toolName + "@" + snapshot[k].version,
                  imageDigest := snapshot[k].imageDigest,
                  imageRef := if look.imageRef(snapshot[k].imageDigest).Some?
                              then look.imageRef(snapshot[k].imageDigest).value else "",
                  displayLabel := e.displayLabel,
                  promotion := e.promotion,
                  certifiedAt := snapshot[k].certifiedAt,
                  validationHash := ev.checks[i].validationHash)))
  {
    hide Proven, Survivor;
    assert e.casHash in LostCas(ev, snapshot) <==> LosesOne(ev, snapshot, e.casHash);
    assert e.imageDigest in LostImages(ev, snapshot) <==>
           exists j :: 0 <= j < |snapshot| && snapshot[j].imageDigest == e.imageDigest && !Proven(ev, snapshot[j]);
    if LosesOne(ev, snapshot, e.casHash) {
      if IsSurvivor(ev, snapshot, e.casHash, k) {
        SurvivorIs(ev, snapshot, e.casHash, k);
        var at := CheckIsFound(ev.checks, snapshot[k].checkId);
      }
    }
  }
}
