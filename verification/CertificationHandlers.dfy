/**
 Handlers of one process side by side. A handler appends what came in, reads the evidence that drives its
 certification, writes the certification and then its catalog entry. The store is locked for each of these
 steps alone, so other handlers, other Stores, reloads and a crash can come between any two of them.
 */
module CertificationHandlers {
  import opened SharedFile
  import opened Wrappers
  import opened Certification
  import opened CertificationIntake

  /** How far a handler has come: its append was saved, its evidence read, its certification saved. */
  datatype Stage =
    | Stored(item: Item)
    | Driven(drive: Drive)
    | Certifying(check: Check, cert: Certified)

  datatype Server = Server(host: Host<Records>, stages: set<Stage>)

  datatype Move =
    | Appends(item: Item, w: Writing<Records>)
    | Reads(item: Item)
    | Certifies(drive: Drive, look: Lookups, now: nat, w: Writing<Records>)
    | Lists(check: Check, cert: Certified, look: Lookups, now: nat, w: Writing<Records>)
    | Foreigner(theirs: Foreign<Records>)
    | Resaves(save: SaveOutcome)
    | Reloads
    | Dies(to: Records)

  /** The stage a move takes a handler on from. */
  function From(m: Move): set<Stage> {
    match m
    case Reads(item) => {Stored(item)}
    case Certifies(d, _, _, _) => {Driven(d)}
    case Lists(check, cert, _, _, _) => {Certifying(check, cert)}
    case _ => {}
  }

  /** What a move makes of memory before it saves, if it is a write that its handler gets to. */
  function Change(s: Server, m: Move): Option<Records> {
    var st := s.host.mem;
    match m
    case Appends(item, _) => Taken(st, item)
    case Certifies(d, look, now, _) =>
      if Driven(d) in s.stages && Named(d.check) && d.check.imageDigest != ""
      then Some(Decided(st, d, look, now, false)) else None
    case Lists(check, cert, look, now, _) =>
      if Certifying(check, cert) in s.stages
      then Some(st.(catalog := UpsertEntry(st.catalog, EntryOf(check, cert, look), now))) else None
    case _ => None
  }

  predicate Writes(m: Move) {
    m.Appends? || m.Certifies? || m.Lists?
  }

  /** Where a saved write takes its handler. */
  function Reached(m: Move): set<Stage>
    requires Writes(m)
  {
    match m
    case Appends(item, _) => {Stored(item)}
    case Certifies(d, look, now, _) =>
      if CertOf(d, look, now).casHash != "" then {Certifying(d.check, CertOf(d, look, now))} else {}
    case Lists(_, _, _, _, _) => {}
  }

  function Serve(s: Server, m: Move): Server {
    var next := Change(s, m);
    if next.Some? then
      var done := Written(s.host, next.value, m.w);
      Server(done.host, s.stages - From(m) + if done.ok then Reached(m) else {})
    else
      match m
      case Reads(item) =>
        var d := DriveOf(s.host.mem, item);
        s.(stages := s.stages - From(m) + if Stored(item) in s.stages && d.Some? then {Driven(d.value)} else {})
      case Foreigner(theirs) => s.(host := Overwritten(s.host, theirs.to, theirs.synced))
      case Resaves(save) => s.(host := Save(s.host, save).host)
      case Reloads => s.(host := Reloaded(s.host))
      case Dies(to) => if to in s.host.exposed then Server(Start(to), {}) else s
      case _ => s.(stages := s.stages - From(m))
  }

  function ServeAll(s: Server, ms: seq<Move>): Server
    decreases |ms|
  {
    if ms == [] then s else ServeAll(Serve(s, ms[0]), ms[1..])
  }

  // ── what each content is made of ────────────────────────────────────────────

  predicate Landing(m: Move, r: Records) {
    (m.Foreigner? && m.theirs.to == r) || (Writes(m) && Lands(m.w, r))
  }

  lemma ServeContents(s: Server, m: Move, r: Records)
    requires r in Contents(Serve(s, m).host)
    ensures r in Contents(s.host) || Landing(m, r) || Change(s, m) == Some(r)
  {
    hide Written, Change, DriveOf, Reached, From;
    var next := Change(s, m);
    if next.Some? {
      ChangesWrite(s, m);
      WrittenContents(s.host, next.value, m.w, r);
    }
  }

  lemma ChangesWrite(s: Server, m: Move)
    ensures Change(s, m).Some? ==> Writes(m)
  {
  }

  /** The write finds the file moved, so its change is dropped. */
  predicate Dropped(s: Server, m: Move)
    requires Writes(m)
  {
    m.w.save != Refused && s.host.seen != Met(s.host, m.w.theirs).file
  }

  lemma ChangeStays(s: Server, m: Move)
    requires Change(s, m).Some? && !Dropped(s, m)
    ensures Serve(s, m).host.mem == Change(s, m).value
  {
    hide Change, Reached, From;
  }

  // ── soundness ───────────────────────────────────────────────────────────────

  /** A certification is written ACTIVE only when the records in memory just then prove it, or it is dropped. */
  predicate ProvesIt(s: Server, m: Move) {
    m.Certifies? && Change(s, m).Some? && !Dropped(s, m) ==>
      Blocks(m.drive.scan) || Proven(s.host.mem.evidence, CertOf(m.drive, m.look, m.now))
  }

  predicate ProvenWhenWritten(s: Server, ms: seq<Move>)
    decreases |ms|
  {
    ms != [] ==> ProvesIt(s, ms[0]) && ProvenWhenWritten(Serve(s, ms[0]), ms[1..])
  }

  /** Memory, the file and every exposed content are sound now and after every move. */
  ghost predicate AlwaysSound(s: Server, ms: seq<Move>)
    decreases |ms|
  {
    AllSound(s.host) && (ms != [] ==> AlwaysSound(Serve(s, ms[0]), ms[1..]))
  }

  ghost predicate ForeignersSound(m: Move) {
    forall r :: Landing(m, r) ==> Sound(r)
  }

  lemma DecidedIsSoundExactly(st: Records, d: Drive, look: Lookups, now: nat)
    requires Sound(st)
    ensures Sound(Decided(st, d, look, now, false))
            <==> Blocks(d.scan) || Proven(st.evidence, CertOf(d, look, now))
  {
    hide GoodIds, GetCheck, GetScan, Ineligibility, TerminalL5B, SameKey;
    var cert := CertOf(d, look, now);
    var f, next := FindKey(st.certs, KeyOf(cert)), Upsert(st.certs, cert, now);
    var at := if f.Some? then f.value else |st.certs|;
    assert next[at] == Stamped(cert, now);
    assert Proven(st.evidence, next[at]) == Proven(st.evidence, cert);
    assert forall i :: 0 <= i < |next| && i != at ==> next[i] == st.certs[i];
  }

  lemma ChangeIsSoundExactly(s: Server, m: Move)
    requires Sound(s.host.mem) && Change(s, m).Some? && !Dropped(s, m)
    ensures Sound(Change(s, m).value) <==> ProvesIt(s, m)
  {
    hide Sound, Proven, Decided, CertOf, EntryOf, UpsertEntry, Dropped;
    match m
    case Appends(item, _) => TakenKeepsProofs(s.host.mem, item);
    case Certifies(d, look, now, _) => DecidedIsSoundExactly(s.host.mem, d, look, now);
    case Lists(_, _, _, _, _) => SameCertsSound(s.host.mem, Change(s, m).value);
  }

  lemma SameCertsSound(a: Records, b: Records)
    requires a.evidence == b.evidence && a.certs == b.certs
    ensures Sound(a) == Sound(b)
  {
  }

  lemma ServeIsSoundExactly(s: Server, m: Move)
    requires AllSound(s.host) && ForeignersSound(m)
    ensures AllSound(Serve(s, m).host) <==> ProvesIt(s, m)
  {
    hide Sound, Serve, Change, Landing, Dropped, Proven, Contents;
    ChangesWrite(s, m);
    MemoryIsThere(s.host);
    MemoryIsThere(Serve(s, m).host);
    if Change(s, m).Some? && !Dropped(s, m) {
      ChangeIsSoundExactly(s, m);
      ChangeStays(s, m);
    }
    if ProvesIt(s, m) {
      forall r | r in Contents(Serve(s, m).host) ensures Sound(r) {
        ServeContents(s, m, r);
        if Change(s, m).Some? && Dropped(s, m) { DroppedContents(s, m, r); }
      }
    }
  }

  lemma MemoryIsThere(h: Host<Records>)
    ensures h.mem in Contents(h)
  {
  }

  lemma DroppedContents(s: Server, m: Move, r: Records)
    requires Change(s, m).Some? && Dropped(s, m) && r in Contents(Serve(s, m).host)
    ensures r in Contents(s.host) || Landing(m, r)
  {
    hide Change, Reached, From;
    ChangesWrite(s, m);
  }

  /**
   Handlers side by side keep every ACTIVE certification proven, in memory, in the file and in every content a
   crash may bring back, exactly when each certification they write ACTIVE and do not drop is proven by the
   records in memory at that moment.
   */
  lemma {:induction false} HandlersAreSoundExactly(s: Server, ms: seq<Move>)
    requires AllSound(s.host) && forall i :: 0 <= i < |ms| ==> ForeignersSound(ms[i])
    ensures AlwaysSound(s, ms) <==> ProvenWhenWritten(s, ms)
    decreases |ms|
  {
    hide AllSound, ForeignersSound, Serve, ProvesIt;
    if ms != [] {
      ServeIsSoundExactly(s, ms[0]);
      if ProvesIt(s, ms[0]) {
        HandlersAreSoundExactly(Serve(s, ms[0]), ms[1..]);
      }
    }
  }

  // ── reads that settle ───────────────────────────────────────────────────────

  /** What a handler has read or stored is in these records, and bears its certification. */
  predicate Supports(r: Records, stage: Stage) {
    match stage
    case Stored(CheckItem(c)) => c in r.evidence.checks
    case Stored(ScanItem(x)) => x in r.evidence.scans
    case Driven(d) => Bears(d) && d.check in r.evidence.checks && (NeedsScan(d) ==> d.scan.value in r.evidence.scans)
    case Certifying(_, _) => true
  }

  predicate NeedsScan(d: Drive) {
    !d.check.terminal && !Blocks(d.scan)
  }

  predicate Bears(d: Drive) {
    Admissible(d.check) && (NeedsScan(d) ==> d.scan.Some? && TerminalL5B(d.scan.value))
  }

  ghost predicate AllSupport(s: Server) {
    forall r, stage :: r in Contents(s.host) && stage in s.stages ==> Supports(r, stage)
  }

  /** Another Store builds on the file it found: it is sound and drops no evidence. */
  ghost predicate BuildsOn(s: Server, m: Move) {
    forall r :: Landing(m, r) ==>
      && Sound(r)
      && (forall c :: c in s.host.file.evidence.checks ==> c in r.evidence.checks)
      && (forall x :: x in s.host.file.evidence.scans ==> x in r.evidence.scans)
  }

  ghost predicate AllBuildOn(s: Server, ms: seq<Move>)
    decreases |ms|
  {
    ms != [] ==> BuildsOn(s, ms[0]) && AllBuildOn(Serve(s, ms[0]), ms[1..])
  }

  /** The check read for a scan is stored everywhere, not only in memory. */
  ghost predicate ReadSettles(s: Server, m: Move) {
    var d := if m.Reads? then DriveOf(s.host.mem, m.item) else None;
    m.Reads? && m.item.ScanItem? && d.Some? ==>
      forall r :: r in Contents(s.host) ==> d.value.check in r.evidence.checks
  }

  ghost predicate ReadsSettle(s: Server, ms: seq<Move>)
    decreases |ms|
  {
    ms != [] ==> ReadSettles(s, ms[0]) && ReadsSettle(Serve(s, ms[0]), ms[1..])
  }

  lemma SupportedIsProven(r: Records, d: Drive, look: Lookups, now: nat)
    requires Sound(r) && Supports(r, Driven(d))
    ensures Blocks(d.scan) || Proven(r.evidence, CertOf(d, look, now))
  {
    hide ActiveAreProven, GetCheck, GetScan, Ineligibility, TerminalL5B;
  }

  /** Evidence only grows, so what supported a stage in memory or in the file still does. */
  lemma SupportGrows(a: Records, b: Records, stage: Stage)
    requires Supports(a, stage)
    requires forall c :: c in a.evidence.checks ==> c in b.evidence.checks
    requires forall x :: x in a.evidence.scans ==> x in b.evidence.scans
    ensures Supports(b, stage)
  {
  }

  lemma ChangeKeepsEvidence(s: Server, m: Move)
    requires Change(s, m).Some?
    ensures forall c :: c in s.host.mem.evidence.checks ==> c in Change(s, m).value.evidence.checks
    ensures forall x :: x in s.host.mem.evidence.scans ==> x in Change(s, m).value.evidence.scans
  {
  }

  lemma OldStagesSupported(s: Server, m: Move, r: Records, stage: Stage)
    requires AllSupport(s) && BuildsOn(s, m) && r in Contents(Serve(s, m).host) && stage in s.stages
    ensures Supports(r, stage)
  {
    hide Supports, Serve, Change, Landing, Sound;
    ServeContents(s, m, r);
    assert s.host.mem in Contents(s.host) && s.host.file in Contents(s.host);
    if Landing(m, r) {
      SupportGrows(s.host.file, r, stage);
    } else if Change(s, m) == Some(r) {
      ChangeKeepsEvidence(s, m);
      SupportGrows(s.host.mem, r, stage);
    }
  }

  lemma NewStages(s: Server, m: Move, stage: Stage)
    requires stage in Serve(s, m).stages && stage !in s.stages
    ensures (Writes(m) && Change(s, m).Some? && Serve(s, m).host == Start(Change(s, m).value) && stage in Reached(m))
            || (m.Reads? && Stored(m.item) in s.stages && Serve(s, m).host == s.host
                && DriveOf(s.host.mem, m.item).Some? && stage == Driven(DriveOf(s.host.mem, m.item).value))
  {
    hide Change, DriveOf, Reached, From;
    ChangesWrite(s, m);
    if Change(s, m).Some? { WrittenIsDurable(s.host, Change(s, m).value, m.w); }
  }

  lemma ReadIsSupported(s: Server, m: Move, r: Records)
    requires AllSupport(s) && ReadSettles(s, m) && r in Contents(s.host)
    requires m.Reads? && Stored(m.item) in s.stages && DriveOf(s.host.mem, m.item).Some?
    ensures Supports(r, Driven(DriveOf(s.host.mem, m.item).value))
  {
    hide Ineligibility, TerminalL5B, Latest, ScansOf;
    assert Supports(r, Stored(m.item));
    if m.item.ScanItem? { ChecksOfAre(s.host.mem.evidence.checks, m.item.scan.imageDigest); }
  }

  lemma ReachedIsSupported(s: Server, m: Move, stage: Stage)
    requires Writes(m) && Change(s, m).Some? && stage in Reached(m)
    ensures Supports(Change(s, m).value, stage)
  {
    hide Decided, CertOf, EntryOf, UpsertEntry;
  }

  lemma ServeKeepsSupport(s: Server, m: Move)
    requires AllSupport(s) && BuildsOn(s, m) && ReadSettles(s, m)
    ensures AllSupport(Serve(s, m))
  {
    hide Supports, Serve, BuildsOn, ReadSettles, Reached, Change, DriveOf;
    forall r, stage | r in Contents(Serve(s, m).host) && stage in Serve(s, m).stages ensures Supports(r, stage) {
      if stage in s.stages {
        OldStagesSupported(s, m, r, stage);
      } else {
        NewStages(s, m, stage);
        if m.Reads? {
          ReadIsSupported(s, m, r);
        } else {
          ReachedIsSupported(s, m, stage);
        }
      }
    }
  }

  /**
   Reads that settle are enough: when every scan's handler finds a check that is stored everywhere, and the
   other Stores build on the file they find, each certification is proven when it is written.
   */
  lemma {:induction false} SettledReadsProve(s: Server, ms: seq<Move>)
    requires AllSound(s.host) && AllSupport(s) && AllBuildOn(s, ms) && ReadsSettle(s, ms)
    ensures ProvenWhenWritten(s, ms) && AlwaysSound(s, ms)
    decreases |ms|
  {
    hide AllSupport, BuildsOn, Serve, ReadSettles, ProvesIt, AllSound;
    if ms != [] {
      var m := ms[0];
      SupportedWrite(s, m);
      FewerDemands(s, m);
      ServeIsSoundExactly(s, m);
      ServeKeepsSupport(s, m);
      SettledReadsProve(Serve(s, m), ms[1..]);
    }
  }

  lemma FewerDemands(s: Server, m: Move)
    requires BuildsOn(s, m)
    ensures ForeignersSound(m)
  {
    hide Landing, Sound;
  }

  lemma SupportedWrite(s: Server, m: Move)
    requires AllSound(s.host) && AllSupport(s)
    ensures ProvesIt(s, m)
  {
    hide Sound, Proven, Supports, Dropped, CertOf;
    MemoryIsThere(s.host);
    if m.Certifies? && Change(s, m).Some? {
      SupportedIsProven(s.host.mem, m.drive, m.look, m.now);
    }
  }

  /**
   Certification soundness with overlapping handlers: from the startup pass on, every ACTIVE certification in
   memory, in the file and in every exposed content is proven at all times, if the stored unproven ones came
   first under their keys and reads settle.
   */
  lemma OverlappingHandlersKeepProofs(st: Records, look: Lookups, now: nat, ms: seq<Move>)
    requires GoodIds(st.evidence) && UnprovenComeFirst(st.evidence, st.certs)
    requires var s := Server(Passed(Start(st), look, now), {}); AllBuildOn(s, ms) && ReadsSettle(s, ms)
    ensures AlwaysSound(Server(Passed(Start(st), look, now), {}), ms)
  {
    hide AllSound, Passed, AllBuildOn, ReadsSettle, GoodIds, UnprovenComeFirst;
    PassIsSoundExactly(st, look, now);
    SettledReadsProve(Server(Passed(Start(st), look, now), {}), ms);
  }

  // ── one handler after another ───────────────────────────────────────────────

  lemma OneMove(s: Server, m: Move)
    ensures ServeAll(s, [m]) == Serve(s, m)
  {
    hide Serve;
    assert [m][1..] == [];
  }

  lemma MoreMoves(s: Server, m: Move, ms: seq<Move>)
    ensures ServeAll(s, [m] + ms) == ServeAll(Serve(s, m), ms)
  {
    hide Serve;
    assert ([m] + ms)[1..] == ms;
  }

  /** From the evidence read on, a handler alone does what certify does. */
  lemma CertifyIsItsMoves(h: Host<Records>, d: Drive, look: Lookups, now: nat, saves: Saves) returns (ms: seq<Move>)
    ensures ServeAll(Server(h, {Driven(d)}), ms).host == Certify(h, d, look, now, saves).host
  {
    hide Written, Decided, EntryOf, CertOf;
    var s, first := Server(h, {Driven(d)}), Certifies(d, look, now, saves.cert);
    ms := [first];
    OneMove(s, first);
    if Named(d.check) && d.check.imageDigest != "" {
      var next := Decided(h.mem, d, look, now, false);
      var done := Written(h, next, saves.cert);
      WrittenIsDurable(h, next, saves.cert);
      if done.ok && CertOf(d, look, now).casHash != "" {
        var cert := CertOf(d, look, now);
        var second := Lists(d.check, cert, look, now, saves.entry);
        ms := [first] + [second];
        MoreMoves(s, first, [second]);
        OneMove(Serve(s, first), second);
        ListedIsDecided(h.mem, d, look, now);
      }
    }
  }

  lemma ListedIsDecided(st: Records, d: Drive, look: Lookups, now: nat)
    requires CertOf(d, look, now).casHash != ""
    ensures var half := Decided(st, d, look, now, false);
            half.(catalog := UpsertEntry(half.catalog, EntryOf(d.check, CertOf(d, look, now), look), now))
            == Decided(st, d, look, now, true)
  {
    hide CertOf, EntryOf, Upsert, UpsertEntry;
  }

  /** An uninterrupted intake is the moves of one handler. */
  lemma StepIsOneHandler(h: Host<Records>, intake: Intake) returns (ms: seq<Move>)
    ensures ServeAll(Server(h, {}), ms).host == Step(h, intake)
  {
    hide Written, Certify, Taken, DriveOf;
    var s := Server(h, {});
    var append, read := Appends(intake.item, intake.stored), Reads(intake.item);
    ms := [append];
    OneMove(s, append);
    if Taken(h.mem, intake.item).Some? {
      var held := Taken(h.mem, intake.item).value;
      var appended := Written(h, held, intake.stored);
      WrittenIsDurable(h, held, intake.stored);
      var d := DriveOf(held, intake.item);
      if appended.ok && d.Some? {
        var rest := CertifyIsItsMoves(appended.host, d.value, intake.look, intake.now, intake.saves);
        var stored := Serve(s, append);
        assert stored.stages == {Stored(intake.item)};
        assert Serve(stored, read) == Server(appended.host, {Driven(d.value)});
        ms := [append] + ([read] + rest);
        MoreMoves(s, append, [read] + rest);
        MoreMoves(stored, read, rest);
      }
    }
  }

  // ── a read that did not settle ──────────────────────────────────────────────

  /**
   Two handlers, a failed save and another Store's write leave an ACTIVE certification that nothing stored proves. The
   scan's handler finds a check whose own append was not saved; the file has moved, so the next write drops that
   check from memory; then the certification is written and saved.
   */
  lemma UnsettledReadIsCertified(c: Check, x: Scan, z: Check, y: Check, look: Lookups, now: nat)
    requires Admissible(c) && Named(c) && c.imageDigest == x.imageDigest != ""
    requires TerminalL5B(x) && x.policyResult != BLOCKED && x.scanId != ""
    requires c.checkId != "" && y.checkId != "" && z.checkId != "" && c.checkId != y.checkId && c.checkId != z.checkId
    ensures var theirs := Records(Evidence([z], [x]), [], []);
            var d := Drive(c, Some(x));
            var ms := [Appends(ScanItem(x), CLEAN), Appends(CheckItem(c), Writing(None, Refused)), Reads(ScanItem(x)),
                       Appends(CheckItem(y), Writing(Some(Foreign(theirs, true)), Synced)),
                       Certifies(d, look, now, CLEAN)];
            var last := ServeAll(Server(Start(NOTHING_STORED), {}), ms).host;
            && Sound(NOTHING_STORED) && Sound(theirs)
            && last == Start(last.mem) && last.mem.evidence == theirs.evidence
            && |last.mem.certs| == 1 && last.mem.certs[0].promotion == Active
            && !Proven(last.mem.evidence, last.mem.certs[0])
  {
    hide Ineligibility, TerminalL5B, Serve, CLEAN, Decided;
    var theirs, d := Records(Evidence([z], [x]), [], []), Drive(c, Some(x));
    var s0, s1 := Server(Start(NOTHING_STORED), {}), Server(Start(ScanOnly(x)), {Stored(ScanItem(x))});
    var s2 := s1.(host := s1.host.(mem := WithCheck(c, x)));
    var s3, s4 := s2.(stages := {Driven(d)}), Server(Start(theirs), {Driven(d)});
    var m1, m2, m3 := Appends(ScanItem(x), CLEAN), Appends(CheckItem(c), Writing(None, Refused)), Reads(ScanItem(x));
    var m4, m5 := Appends(CheckItem(y), Writing(Some(Foreign(theirs, true)), Synced)), Certifies(d, look, now, CLEAN);
    ScanArrives(x);
    CheckIsNotSaved(c, x);
    HandlerReads(c, x);
    WriteIsDropped(c, x, z, y);
    CertificationIsSaved(c, x, z, look, now);
    FiveMoves(s0, [m1, m2, m3, m4, m5]);
  }

  function ScanOnly(x: Scan): Records {
    Records(Evidence([], [x]), [], [])
  }

  function WithCheck(c: Check, x: Scan): Records {
    Records(Evidence([c], [x]), [], [])
  }

  lemma FiveMoves(s: Server, ms: seq<Move>)
    requires |ms| == 5
    ensures ServeAll(s, ms) == Serve(Serve(Serve(Serve(Serve(s, ms[0]), ms[1]), ms[2]), ms[3]), ms[4])
  {
    hide Serve, ServeAll;
    var rest := ms[1..];
    assert ms == [ms[0]] + rest && rest == [ms[1]] + ms[2..];
    assert ms[2..] == [ms[2]] + ms[3..] && ms[3..] == [ms[3]] + [ms[4]];
    MoreMoves(s, ms[0], rest);
    var s1 := Serve(s, ms[0]);
    MoreMoves(s1, ms[1], ms[2..]);
    var s2 := Serve(s1, ms[1]);
    MoreMoves(s2, ms[2], ms[3..]);
    var s3 := Serve(s2, ms[2]);
    MoreMoves(s3, ms[3], [ms[4]]);
    OneMove(Serve(s3, ms[3]), ms[4]);
  }

  lemma ScanArrives(x: Scan)
    requires x.scanId != ""
    ensures Serve(Server(Start(NOTHING_STORED), {}), Appends(ScanItem(x), CLEAN))
            == Server(Start(ScanOnly(x)), {Stored(ScanItem(x))})
    ensures Sound(NOTHING_STORED)
  {
    assert [] + [x] == [x];
  }

  lemma CheckIsNotSaved(c: Check, x: Scan)
    requires c.checkId != ""
    ensures var s := Server(Start(ScanOnly(x)), {Stored(ScanItem(x))});
            Serve(s, Appends(CheckItem(c), Writing(None, Refused))) == s.(host := s.host.(mem := WithCheck(c, x)))
  {
    assert [] + [c] == [c];
  }

  lemma HandlerReads(c: Check, x: Scan)
    requires Admissible(c) && c.imageDigest == x.imageDigest && TerminalL5B(x)
    ensures var h := Start(ScanOnly(x)).(mem := WithCheck(c, x));
            Serve(Server(h, {Stored(ScanItem(x))}), Reads(ScanItem(x))) == Server(h, {Driven(Drive(c, Some(x)))})
  {
    hide Ineligibility, TerminalL5B;
    AdmissibleStep([c], x.imageDigest);
  }

  lemma WriteIsDropped(c: Check, x: Scan, z: Check, y: Check)
    requires y.checkId != "" && c.checkId != y.checkId
    ensures var theirs := Records(Evidence([z], [x]), [], []);
            var h, stages := Start(ScanOnly(x)).(mem := WithCheck(c, x)), {Driven(Drive(c, Some(x)))};
            Serve(Server(h, stages), Appends(CheckItem(y), Writing(Some(Foreign(theirs, true)), Synced)))
            == Server(Start(theirs), stages)
  {
  }

  lemma CertificationIsSaved(c: Check, x: Scan, z: Check, look: Lookups, now: nat)
    requires Named(c) && c.imageDigest != "" && x.policyResult != BLOCKED && x.scanId != "" && z.checkId != ""
    requires c.checkId != "" && c.checkId != z.checkId
    ensures var theirs, d := Records(Evidence([z], [x]), [], []), Drive(c, Some(x));
            var last := Serve(Server(Start(theirs), {Driven(d)}), Certifies(d, look, now, CLEAN)).host;
            && Sound(theirs) && last == Start(theirs.(certs := [Stamped(CertOf(d, look, now), now)]))
            && CertOf(d, look, now).promotion == Active && !Proven(theirs.evidence, CertOf(d, look, now))
  {
    assert [] + [Stamped(CertOf(Drive(c, Some(x)), look, now), now)]
        == [Stamped(CertOf(Drive(c, Some(x)), look, now), now)];
  }

  // ── the catalog ─────────────────────────────────────────────────────────────

  /** A catalog entry written ACTIVE, or any certification written, is what can leave an ACTIVE entry unbacked. */
  predicate KeepsBacking(s: Server, m: Move) {
    var st := s.host.mem;
    Change(s, m).Some? && !Dropped(s, m) ==>
      match m
      case Certifies(d, look, now, _) => !Orphans(st, CertOf(d, look, now), false)
      case Lists(_, cert, _, _, _) => cert.promotion == Active ==> BackedBySome(st.certs, cert.casHash)
      case _ => true
  }

  predicate BackingKept(s: Server, ms: seq<Move>)
    decreases |ms|
  {
    ms != [] ==> KeepsBacking(s, ms[0]) && BackingKept(Serve(s, ms[0]), ms[1..])
  }

  ghost predicate AllBacked(h: Host<Records>) {
    forall r :: r in Contents(h) ==> Backed(r)
  }

  ghost predicate AlwaysBacked(s: Server, ms: seq<Move>)
    decreases |ms|
  {
    AllBacked(s.host) && (ms != [] ==> AlwaysBacked(Serve(s, ms[0]), ms[1..]))
  }

  ghost predicate ForeignersBacked(m: Move) {
    forall r :: Landing(m, r) ==> Backed(r)
  }

  lemma ListingKeepsBackedExactly(st: Records, e: CatalogEntry, now: nat)
    requires Backed(st)
    ensures Backed(st.(catalog := UpsertEntry(st.catalog, e, now)))
            <==> (e.promotion == Active ==> BackedBySome(st.certs, e.casHash))
  {
    hide BackedBySome, FindEntry;
    EntriesAfter(st.catalog, e, now);
    var f, next := FindEntry(st.catalog, e.casHash), UpsertEntry(st.catalog, e, now);
    var at := if f.Some? then f.value else |st.catalog|;
    assert next[at] == StampedEntry(e, now);
  }

  lemma ChangeIsBackedExactly(s: Server, m: Move)
    requires Backed(s.host.mem) && Change(s, m).Some? && !Dropped(s, m)
    ensures Backed(Change(s, m).value) <==> KeepsBacking(s, m)
  {
    hide Backed, Decided, CertOf, EntryOf, UpsertEntry, Dropped, BackedBySome, Orphans;
    match m
    case Appends(_, _) => SameCatalog(s.host.mem, Change(s, m).value);
    case Certifies(d, look, now, _) => DecidedKeepsBackedExactly(s.host.mem, d, look, now, false);
    case Lists(check, cert, look, now, _) =>
      EntryCas(check, cert, look);
      ListingKeepsBackedExactly(s.host.mem, EntryOf(check, cert, look), now);
  }

  lemma ServeIsBackedExactly(s: Server, m: Move)
    requires AllBacked(s.host) && ForeignersBacked(m)
    ensures AllBacked(Serve(s, m).host) <==> KeepsBacking(s, m)
  {
    hide Backed, Serve, Change, Landing, Dropped, Contents, Orphans, BackedBySome;
    ChangesWrite(s, m);
    MemoryIsThere(s.host);
    MemoryIsThere(Serve(s, m).host);
    if Change(s, m).Some? && !Dropped(s, m) {
      ChangeIsBackedExactly(s, m);
      ChangeStays(s, m);
    }
    if KeepsBacking(s, m) {
      forall r | r in Contents(Serve(s, m).host) ensures Backed(r) {
        ServeContents(s, m, r);
        if Change(s, m).Some? && Dropped(s, m) { DroppedContents(s, m, r); }
      }
    }
  }

  /**
   The catalog over whole runs: at all times, in memory, in the file and in every content a crash may bring back,
   each ACTIVE entry has an ACTIVE certification with its casHash, exactly when no certification written orphans
   an entry and no entry is written ACTIVE whose certification has meanwhile gone. This includes the moment
   between the two writes of one handler, where a crash may fall.
   */
  lemma {:induction false} CatalogIsAlwaysBackedExactly(s: Server, ms: seq<Move>)
    requires AllBacked(s.host) && forall i :: 0 <= i < |ms| ==> ForeignersBacked(ms[i])
    ensures AlwaysBacked(s, ms) <==> BackingKept(s, ms)
    decreases |ms|
  {
    hide AllBacked, ForeignersBacked, Serve, KeepsBacking;
    if ms != [] {
      ServeIsBackedExactly(s, ms[0]);
      if KeepsBacking(s, ms[0]) {
        CatalogIsAlwaysBackedExactly(Serve(s, ms[0]), ms[1..]);
      }
    }
  }

  lemma HalfRetracted(st: Records, d: Drive, look: Lookups, now: nat)
    requires Named(d.check) && d.check.imageDigest != "" && |st.certs| == 1
    requires SameKey(KeyOf(st.certs[0]), KeyOf(CertOf(d, look, now)))
    ensures Serve(Server(Start(st), {Driven(d)}), Certifies(d, look, now, CLEAN)).host
            == Start(st.(certs := [Stamped(CertOf(d, look, now), now)]))
  {
    hide CertOf, SameKey;
    FindKeyIs(st.certs, KeyOf(CertOf(d, look, now)), 0);
    assert st.certs[0 := Stamped(CertOf(d, look, now), now)] == [Stamped(CertOf(d, look, now), now)];
  }

  lemma NothingActive(h: Host<Records>, look: Lookups, now: nat)
    requires |h.mem.certs| == 1 && h.mem.certs[0].promotion != Active
    ensures Passed(h, look, now) == h
    ensures h.mem.catalog != [] && h.mem.catalog[0].promotion == Active ==> !Backed(h.mem)
  {
    assert h.mem.certs[1..] == [] && ActiveCerts(h.mem.certs) == [];
    assert !BackedBySome(h.mem.certs, "") && forall cas :: !BackedBySome(h.mem.certs, cas);
  }

  /**
   A crash between the two writes: a blocking scan has retracted the one certification of an image, its entry is
   not yet written. What the process restarts on shows the image ACTIVE, and the startup pass leaves it so.
   */
  lemma RetractionCutShort(c: Check, x: Scan, look: Lookups, now: nat)
    requires CertifiesOnCheck(c) && Named(c) && c.imageDigest != "" && c.checkId != ""
    requires x.policyResult == BLOCKED && x.scanId != ""
    requires look.casHash(c.imageDigest).Some? && look.casHash(c.imageDigest).value != ""
    ensures var cert := Stamped(CertOf(Drive(c, None), look, now), now);
            var entry := StampedEntry(EntryOf(c, cert, look), now);
            var st, d := Records(Evidence([c], [x]), [cert], [entry]), Drive(c, Some(x));
            var half := Serve(Server(Start(st), {Driven(d)}), Certifies(d, look, now, CLEAN));
            var restarted := Serve(half, Dies(half.host.mem)).host;
            && Sound(st) && Backed(st)
            && Passed(restarted, look, now) == restarted && !Backed(restarted.mem)
            && restarted.mem.catalog == [entry] && entry.promotion == Active
  {
    hide Ineligibility, Serve, Passed, Backed;
    var cert := Stamped(CertOf(Drive(c, None), look, now), now);
    var entry := StampedEntry(EntryOf(c, cert, look), now);
    var st, d := Records(Evidence([c], [x]), [cert], [entry]), Drive(c, Some(x));
    EntryCas(c, cert, look);
    OneBacks(st);
    HalfRetracted(st, d, look, now);
    var half := Serve(Server(Start(st), {Driven(d)}), Certifies(d, look, now, CLEAN));
    Restarts(half);
    NothingActive(half.host, look, now);
    assert Sound(st) by { assert GetCheck([c], c.checkId) == Some(c) && GetScan([x], x.scanId) == Some(x); }
  }

  lemma Restarts(s: Server)
    requires s.host == Start(s.host.mem)
    ensures Serve(s, Dies(s.host.mem)).host == s.host
  {
  }
}
