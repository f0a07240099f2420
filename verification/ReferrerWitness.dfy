/**
 SpecReferrerWitness: a budgeted walk over a paginated referrers listing that answers found, absent
 or indeterminate. The registry is any fixed oracle; what its answers look like on the wire is not
 modelled here (see LinkHeader for how a next page is read out of a response).
 */
module ReferrerWitness {
  import opened Wrappers

  const MAX_PAGES: nat := 16
  const MAX_INSPECTIONS: nat := 32
  const TOOL_SPEC := "application/vnd.nodevault.toolspec.v1+json"
  const GENERIC_ARTIFACT := "application/vnd.oci.image.manifest.v1+json"

  datatype Descriptor = Descriptor(digest: string, artifactType: string)

  datatype Next = LastPage | Continue(url: string) | Unfollowable

  /** One page request: a hard failure, a confirmed 404, or a decoded page. */
  datatype PageAnswer = PageFailed | PageMissing | Page(descriptors: seq<Descriptor>, next: Next)

  datatype ManifestAnswer =
    | ManifestFailed
    | ManifestGone
    | Manifest(artifactType: string, configMediaType: string, configDigest: string)

  /** A config blob: unreadable, confirmed absent, there but not decodable, or naming an entry. */
  datatype BlobAnswer = BlobFailed | BlobGone | BlobGarbled | Blob(casHash: string)

  datatype Registry = Registry(
    page: string -> PageAnswer,
    manifest: string -> ManifestAnswer,
    blob: string -> BlobAnswer,
    usable: string -> bool)

  /** The entry a witness has to belong to. */
  datatype Want = Want(referrerDigest: string, casHash: string)

  datatype Verdict = Found | Absent | Indeterminate

  // ── what one descriptor is worth, read without any budget ────────────────────

  datatype Evidence = Yes | No | Unknown

  /** Only an absent or legacy-generic artifactType leaves the kind to the manifest. */
  predicate Decided(d: Descriptor) {
    d.artifactType != "" && d.artifactType != GENERIC_ARTIFACT
  }

  /** The kind a manifest declares, if it declares any. */
  function ManifestKind(m: ManifestAnswer): Option<string>
    requires m.Manifest?
  {
    if m.artifactType != "" && m.artifactType != GENERIC_ARTIFACT then Some(m.artifactType)
    else if m.configMediaType != "" then Some(m.configMediaType)
    else None
  }

  /** The payload half: present for an expected digest, or naming this entry otherwise. */
  function PayloadEvidence(reg: Registry, want: Want, configDigest: string): Evidence {
    if !reg.usable(configDigest) then Unknown
    else
      match reg.blob(configDigest)
      case BlobFailed => Unknown
      case BlobGone => No
      case BlobGarbled => if want.referrerDigest != "" then Yes else Unknown
      case Blob(cas) =>
        if want.referrerDigest != "" then Yes
        else if cas == "" then Unknown
        else if cas == want.casHash then Yes else No
  }

  /** A descriptor that still needs a fetch. */
  datatype Candidate = Candidate(digest: string, kindKnown: bool)

  function Inspect(reg: Registry, want: Want, c: Candidate): Evidence {
    var m := reg.manifest(c.digest);
    match m
    case ManifestFailed => Unknown
    case ManifestGone => No
    case Manifest(_, _, config) =>
      var kind := ManifestKind(m);
      if kind.None? then Unknown
      else if kind.value != TOOL_SPEC then (if c.kindKnown then Unknown else No)
      else PayloadEvidence(reg, want, config)
  }

  datatype Triaged = Settled(evidence: Evidence) | Fetch(candidate: Candidate)

  /** What the listing alone says about a descriptor. */
  function Triage(reg: Registry, want: Want, d: Descriptor): Triaged {
    if want.referrerDigest != "" && d.digest != want.referrerDigest then Settled(No)
    else if Decided(d) && d.artifactType != TOOL_SPEC && (want.referrerDigest == "" || reg.usable(d.digest))
    then Settled(No)
    else if !reg.usable(d.digest) then Settled(Unknown)
    else Fetch(Candidate(d.digest, Decided(d)))
  }

  function Judge(reg: Registry, want: Want, d: Descriptor): Evidence {
    match Triage(reg, want, d)
    case Settled(e) => e
    case Fetch(c) => Inspect(reg, want, c)
  }

  /** No kind, or the generic one of older pushes. */
  predicate Untyped(kind: string) {
    kind == "" || kind == "application/vnd.oci.image.manifest.v1+json"
  }

  predicate IsToolSpec(kind: string) {
    kind == "application/vnd.nodevault.toolspec.v1+json"
  }

  /** The kind a manifest declares: its own artifactType, or its config's type if that is absent or generic. */
  predicate Declares(m: ManifestAnswer, kind: string) {
    && m.Manifest? && kind != ""
    && kind == if Untyped(m.artifactType) then m.configMediaType else m.artifactType
  }

  /** The listing leaves it to a fetch what this descriptor is. */
  predicate NeedsFetch(reg: Registry, want: Want, d: Descriptor) {
    && reg.usable(d.digest)
    && (want.referrerDigest == "" || d.digest == want.referrerDigest)
    && (Untyped(d.artifactType) || IsToolSpec(d.artifactType))
  }

  /** A ToolSpec referrer for this entry whose payload is there. */
  ghost predicate IsWitness(reg: Registry, want: Want, d: Descriptor) {
    var m := reg.manifest(d.digest);
    && NeedsFetch(reg, want, d)
    && (exists kind :: IsToolSpec(kind) && Declares(m, kind))
    && reg.usable(m.configDigest)
    && (var b := reg.blob(m.configDigest);
        if want.referrerDigest != "" then b.Blob? || b.BlobGarbled? else b.Blob? && b.casHash == want.casHash != "")
  }

  /** Positive evidence is exactly a witness; nothing unreadable and nothing contradictory counts. */
  lemma YesExactlyForWitnesses(reg: Registry, want: Want, d: Descriptor)
    ensures Judge(reg, want, d) == Yes <==> IsWitness(reg, want, d)
  {
    if reg.manifest(d.digest).Manifest? { DeclaresOne(reg.manifest(d.digest)); }
  }

  /**
   Confirmed not to witness this entry: another digest than the expected one; listed as another kind; its manifest
   confirmed gone; its manifest of another kind, where the listing did not claim ToolSpec; its payload confirmed
   gone; or its payload naming another entry. Nothing that had to be read failed or was unusable.
   */
  ghost predicate IsSettledNonWitness(reg: Registry, want: Want, d: Descriptor) {
    var m := reg.manifest(d.digest);
    || (want.referrerDigest != "" && d.digest != want.referrerDigest)
    || (!Untyped(d.artifactType) && !IsToolSpec(d.artifactType)
        && (want.referrerDigest == "" || reg.usable(d.digest)))
    || (NeedsFetch(reg, want, d) && m.ManifestGone?)
    || (NeedsFetch(reg, want, d) && !IsToolSpec(d.artifactType)
        && exists kind :: !IsToolSpec(kind) && Declares(m, kind))
    || (NeedsFetch(reg, want, d) && (exists kind :: IsToolSpec(kind) && Declares(m, kind))
        && reg.usable(m.configDigest)
        && (var b := reg.blob(m.configDigest);
            b.BlobGone? || (want.referrerDigest == "" && b.Blob? && b.casHash !in {"", want.casHash})))
  }

  /** Negative evidence is exactly that; anything else stays unknown. */
  lemma NoExactlyForSettled(reg: Registry, want: Want, d: Descriptor)
    ensures Judge(reg, want, d) == No <==> IsSettledNonWitness(reg, want, d)
  {
    if reg.manifest(d.digest).Manifest? { DeclaresOne(reg.manifest(d.digest)); }
  }

  lemma DeclaresOne(m: ManifestAnswer)
    requires m.Manifest?
    ensures forall kind :: Declares(m, kind) <==> ManifestKind(m) == Some(kind)
  {
  }

  lemma FetchesExactly(reg: Registry, want: Want, d: Descriptor)
    ensures Triage(reg, want, d).Fetch? <==> NeedsFetch(reg, want, d)
  {
  }

  // ── one page ────────────────────────────────────────────────────────────────

  function Candidates(reg: Registry, want: Want, ds: seq<Descriptor>): seq<Candidate> {
    if ds == [] then []
    else
      var t := Triage(reg, want, ds[0]);
      (if t.Fetch? then [t.candidate] else []) + Candidates(reg, want, ds[1..])
  }

  predicate Unreadable(reg: Registry, want: Want, ds: seq<Descriptor>) {
    exists i :: 0 <= i < |ds| && Triage(reg, want, ds[i]) == Settled(Unknown)
  }

  datatype Resolved = Resolved(found: bool, deferred: bool, budget: nat)

  /** Fetch candidates in order until one witnesses or the budget is gone. */
  function Resolve(reg: Registry, want: Want, cs: seq<Candidate>, budget: nat): (r: Resolved)
    ensures r.budget <= budget
    decreases |cs|
  {
    if cs == [] then Resolved(false, false, budget)
    else if budget == 0 then Resolved(false, true, 0)
    else
      match Inspect(reg, want, cs[0])
      case Yes => Resolved(true, false, budget - 1)
      case No => Resolve(reg, want, cs[1..], budget - 1)
      case Unknown =>
        var rest := Resolve(reg, want, cs[1..], budget - 1);
        rest.(deferred := !rest.found)
  }

  function ScanPage(reg: Registry, want: Want, ds: seq<Descriptor>, budget: nat): Resolved {
    var r := Resolve(reg, want, Candidates(reg, want, ds), budget);
    r.(deferred := !r.found && (Unreadable(reg, want, ds) || r.deferred))
  }

  // ── the walk ────────────────────────────────────────────────────────────────

  function Walk(reg: Registry, want: Want, url: string, page: nat, budget: nat, deferred: bool): Verdict
    requires page <= MAX_PAGES
    decreases MAX_PAGES - page
  {
    if page == MAX_PAGES then Indeterminate
    else
      match reg.page(url)
      case PageFailed => Indeterminate
      case PageMissing => if page == 0 then Absent else Indeterminate
      case Page(ds, next) =>
        var r := ScanPage(reg, want, ds, budget);
        if r.found then Found
        else
          match next
          case Continue(u) => Walk(reg, want, u, page + 1, r.budget, deferred || r.deferred)
          case LastPage => if deferred || r.deferred then Indeterminate else Absent
          case Unfollowable => Indeterminate
  }

  /** The whole search, once the image reference has been resolved to a first page. */
  function Search(reg: Registry, want: Want, firstPage: string): Verdict {
    if want.referrerDigest != "" && !reg.usable(want.referrerDigest) then Indeterminate
    else Walk(reg, want, firstPage, 0, MAX_INSPECTIONS, false)
  }

  /** Without an image or a subject there is nothing to witness; an unparsable reference leaves it open. */
  function Witness(reg: Registry, want: Want, imageRef: string, subjectDigest: string,
                   firstPage: Option<string>): Verdict
  {
    if imageRef == "" || subjectDigest == "" then Absent
    else if firstPage.None? then Indeterminate
    else Search(reg, want, firstPage.value)
  }

  // ── the loops ───────────────────────────────────────────────────────────────

  /** One descriptor, with the branches of triage. */
  method TriageOne(reg: Registry, want: Want, d: Descriptor) returns (t: Triaged)
    ensures t == Triage(reg, want, d)
  {
    var decided := Decided(d);
    if want.referrerDigest != "" {
      if d.digest != want.referrerDigest {
        return Settled(No);
      }
      if !reg.usable(d.digest) {
        return Settled(Unknown);
      }
      if decided && d.artifactType == TOOL_SPEC {
        return Fetch(Candidate(d.digest, true));
      }
      return if decided then Settled(No) else Fetch(Candidate(d.digest, false));
    }
    if decided && d.artifactType == TOOL_SPEC && reg.usable(d.digest) {
      return Fetch(Candidate(d.digest, true));
    }
    if decided && d.artifactType == TOOL_SPEC {
      return Settled(Unknown);
    }
    if decided {
      return Settled(No);
    }
    return if reg.usable(d.digest) then Fetch(Candidate(d.digest, false)) else Settled(Unknown);
  }

  method TriagePage(reg: Registry, want: Want, ds: seq<Descriptor>)
    returns (candidates: seq<Candidate>, deferred: bool)
    ensures candidates == Candidates(reg, want, ds)
    ensures deferred == Unreadable(reg, want, ds)
  {
    hide Triage;
    candidates, deferred := [], false;
    var i := 0;
    while i < |ds|
      invariant 0 <= i <= |ds|
      invariant Candidates(reg, want, ds) == candidates + Candidates(reg, want, ds[i..])
      invariant deferred <==> exists k :: 0 <= k < i && Triage(reg, want, ds[k]) == Settled(Unknown)
    {
      assert ds[i..][0] == ds[i] && ds[i..][1..] == ds[i + 1..];
      var t := TriageOne(reg, want, ds[i]);
      match t {
        case Fetch(c) => candidates := candidates + [c];
        case Settled(e) => if e == Unknown { deferred := true; }
      }
      i := i + 1;
    }
  }

  method ResolveCandidates(reg: Registry, want: Want, cs: seq<Candidate>, budget: nat)
    returns (found: bool, deferred: bool, left: nat)
    ensures var r := Resolve(reg, want, cs, budget);
            found == r.found && left == r.budget && (!found ==> deferred == r.deferred)
  {
    found, deferred, left := false, false, budget;
    var i := 0;
    while i < |cs|
      invariant 0 <= i <= |cs| && !found
      invariant var all, rest := Resolve(reg, want, cs, budget), Resolve(reg, want, cs[i..], left);
                all.found == rest.found && all.budget == rest.budget
                && (!all.found ==> all.deferred == (deferred || rest.deferred))
    {
      assert cs[i..][0] == cs[i] && cs[i..][1..] == cs[i + 1..];
      if left == 0 {
        deferred := true;
        return;
      }
      left := left - 1;
      match Inspect(reg, want, cs[i]) {
        case Yes =>
          found := true;
          return;
        case No =>
        case Unknown =>
          deferred := true;
      }
      i := i + 1;
    }
  }

  /**
   SpecReferrerWitness; firstPage is the listing's address if the image reference parses, and pages and
   inspections count the requests made.
   */
  method SpecReferrerWitness(reg: Registry, want: Want, imageRef: string, subjectDigest: string,
                             firstPage: Option<string>)
    returns (v: Verdict, ghost pages: nat, ghost inspections: nat)
    ensures v == Witness(reg, want, imageRef, subjectDigest, firstPage)
    ensures pages <= 16 && inspections <= 32
  {
    hide Candidates, Resolve, Unreadable;
    pages, inspections := 0, 0;
    if imageRef == "" || subjectDigest == "" {
      return Absent, 0, 0;
    }
    if firstPage.None? {
      return Indeterminate, 0, 0;
    }
    if want.referrerDigest != "" && !reg.usable(want.referrerDigest) {
      return Indeterminate, 0, 0;
    }
    var deferred := false;
    var budget := MAX_INSPECTIONS;
    var url := firstPage.value;
    var page := 0;
    while true
      invariant 0 <= page <= MAX_PAGES && pages == page && inspections + budget == MAX_INSPECTIONS
      invariant Search(reg, want, firstPage.value) == Walk(reg, want, url, page, budget, deferred)
      decreases MAX_PAGES - page
    {
      if page == MAX_PAGES {
        return Indeterminate, pages, inspections;
      }
      pages := pages + 1;
      match reg.page(url) {
        case PageFailed =>
          return Indeterminate, pages, inspections;
        case PageMissing =>
          v := if page == 0 then Absent else Indeterminate;
          return;
        case Page(ds, next) =>
          var candidates, pageDeferred := TriagePage(reg, want, ds);
          var found, resolveDeferred, left := ResolveCandidates(reg, want, candidates, budget);
          inspections := inspections + (budget - left);
          budget := left;
          if found {
            return Found, pages, inspections;
          }
          deferred := deferred || pageDeferred || resolveDeferred;
          match next {
            case Unfollowable =>
              return Indeterminate, pages, inspections;
            case LastPage =>
              v := if deferred then Indeterminate else Absent;
              return;
            case Continue(u) =>
              url := u;
          }
      }
      page := page + 1;
    }
  }

  // ── the listing as a whole ──────────────────────────────────────────────────

  /** The address of the k-th page, if the listing reaches that far. */
  function UrlAt(reg: Registry, url: string, k: nat): Option<string>
    decreases k
  {
    if k == 0 then Some(url)
    else
      var p := reg.page(url);
      if p.Page? && p.next.Continue? then UrlAt(reg, p.next.url, k - 1) else None
  }

  /** The descriptors of the k-th page; none if there is no such page. */
  function DescriptorsAt(reg: Registry, url: string, k: nat): seq<Descriptor> {
    var u := UrlAt(reg, url, k);
    if u.Some? && reg.page(u.value).Page? then reg.page(u.value).descriptors else []
  }

  /** The listing has exactly n pages, all readable, the last of them saying so. */
  predicate ListingEnds(reg: Registry, url: string, n: nat)
    decreases n
  {
    n > 0 &&
    var p := reg.page(url);
    p.Page? &&
    if n == 1 then p.next.LastPage? else p.next.Continue? && ListingEnds(reg, p.next.url, n - 1)
  }

  ghost predicate PageAll(reg: Registry, want: Want, ds: seq<Descriptor>, e: Evidence) {
    forall i :: 0 <= i < |ds| ==> Judge(reg, want, ds[i]) == e
  }

  ghost predicate PageHas(reg: Registry, want: Want, ds: seq<Descriptor>, e: Evidence) {
    exists i :: 0 <= i < |ds| && Judge(reg, want, ds[i]) == e
  }

  ghost predicate CandidateSays(reg: Registry, want: Want, cs: seq<Candidate>, e: Evidence) {
    exists i :: 0 <= i < |cs| && Inspect(reg, want, cs[i]) == e
  }

  ghost predicate CandidatesAll(reg: Registry, want: Want, cs: seq<Candidate>, e: Evidence) {
    forall i :: 0 <= i < |cs| ==> Inspect(reg, want, cs[i]) == e
  }

  lemma CandidateStep(reg: Registry, want: Want, c: Candidate, cs: seq<Candidate>)
    ensures CandidateSays(reg, want, [c] + cs, Yes)
            <==> Inspect(reg, want, c) == Yes || CandidateSays(reg, want, cs, Yes)
    ensures CandidatesAll(reg, want, [c] + cs, No) <==> Inspect(reg, want, c) == No && CandidatesAll(reg, want, cs, No)
  {
    hide Inspect;
    var all := [c] + cs;
    assert all[0] == c;
    assert forall i :: 1 <= i < |all| ==> all[i] == cs[i - 1];
    assert forall i :: 0 <= i < |cs| ==> cs[i] == all[i + 1];
  }

  /** The candidates of a page decide it, except for what the listing already left unread. */
  lemma {:induction false} CandidatesSpec(reg: Registry, want: Want, ds: seq<Descriptor>)
    ensures var cs := Candidates(reg, want, ds);
            && |cs| <= |ds|
            && (CandidateSays(reg, want, cs, Yes) <==> PageHas(reg, want, ds, Yes))
            && (!Unreadable(reg, want, ds) && CandidatesAll(reg, want, cs, No) <==> PageAll(reg, want, ds, No))
    decreases |ds|
  {
    hide Inspect, CandidateSays, CandidatesAll, PageHas, PageAll, Unreadable;
    if ds == [] {
      NothingOnEmptyPage(reg, want);
    } else {
      var rest, t := ds[1..], Triage(reg, want, ds[0]);
      CandidatesSpec(reg, want, rest);
      var cs, cs' := Candidates(reg, want, ds), Candidates(reg, want, rest);
      assert t.Settled? ==> t.evidence != Yes;
      assert t.Fetch? ==> cs == [t.candidate] + cs';
      assert t.Settled? ==> cs == cs';
      if t.Fetch? { CandidateStep(reg, want, t.candidate, cs'); }
      PageStep(reg, want, ds);
    }
  }

  lemma NothingOnEmptyPage(reg: Registry, want: Want)
    ensures !CandidateSays(reg, want, [], Yes) && CandidatesAll(reg, want, [], No)
    ensures !PageHas(reg, want, [], Yes) && PageAll(reg, want, [], No) && !Unreadable(reg, want, [])
  {
  }

  lemma {:induction false} ResolveSpec(reg: Registry, want: Want, cs: seq<Candidate>, budget: nat)
    ensures var r := Resolve(reg, want, cs, budget);
            && (r.found ==> CandidateSays(reg, want, cs, Yes))
            && (!r.found && !r.deferred ==> CandidatesAll(reg, want, cs, No))
            && (|cs| <= budget && CandidateSays(reg, want, cs, Yes) ==> r.found)
            && (|cs| <= budget && CandidatesAll(reg, want, cs, No) ==> !r.found && !r.deferred)
            && (|cs| <= budget && !r.found ==> r.budget == budget - |cs|)
    decreases |cs|
  {
    hide Inspect, CandidateSays, CandidatesAll;
    NothingOnEmptyPage(reg, want);
    if cs != [] {
      assert cs == [cs[0]] + cs[1..];
      CandidateStep(reg, want, cs[0], cs[1..]);
      if budget > 0 { ResolveSpec(reg, want, cs[1..], budget - 1); }
    }
  }

  lemma PageStep(reg: Registry, want: Want, ds: seq<Descriptor>)
    requires ds != []
    ensures PageHas(reg, want, ds, Yes) <==> Judge(reg, want, ds[0]) == Yes || PageHas(reg, want, ds[1..], Yes)
    ensures PageAll(reg, want, ds, No) <==> Judge(reg, want, ds[0]) == No && PageAll(reg, want, ds[1..], No)
    ensures Unreadable(reg, want, ds)
            <==> Triage(reg, want, ds[0]) == Settled(Unknown) || Unreadable(reg, want, ds[1..])
  {
    hide Judge, Triage;
    var rest := ds[1..];
    assert forall i :: 1 <= i < |ds| ==> ds[i] == rest[i - 1];
    assert forall i :: 0 <= i < |rest| ==> rest[i] == ds[i + 1];
  }

  /** Found means some descriptor in reach really is this entry's witness. */
  lemma {:induction false} FoundIsWitnessed(reg: Registry, want: Want, url: string, page: nat, budget: nat,
                                            deferred: bool)
    requires page <= MAX_PAGES && Walk(reg, want, url, page, budget, deferred) == Found
    ensures exists k, i :: 0 <= k < MAX_PAGES - page && 0 <= i < |DescriptorsAt(reg, url, k)|
              && IsWitness(reg, want, DescriptorsAt(reg, url, k)[i])
    decreases MAX_PAGES - page
  {
    hide Judge, IsWitness, Inspect;
    var p := reg.page(url);
    var ds := p.descriptors;
    CandidatesSpec(reg, want, ds);
    ResolveSpec(reg, want, Candidates(reg, want, ds), budget);
    var r := ScanPage(reg, want, ds, budget);
    if r.found {
      var i :| 0 <= i < |ds| && Judge(reg, want, ds[i]) == Yes;
      YesExactlyForWitnesses(reg, want, ds[i]);
      assert DescriptorsAt(reg, url, 0) == ds;
    } else {
      FoundIsWitnessed(reg, want, p.next.url, page + 1, r.budget, deferred || r.deferred);
      var k, i :| 0 <= k < MAX_PAGES - (page + 1) && 0 <= i < |DescriptorsAt(reg, p.next.url, k)|
                  && IsWitness(reg, want, DescriptorsAt(reg, p.next.url, k)[i]);
      assert DescriptorsAt(reg, url, k + 1) == DescriptorsAt(reg, p.next.url, k);
    }
  }

  /** All descriptors of the first n pages are settled as not witnessing. */
  ghost predicate ListingAll(reg: Registry, want: Want, url: string, n: nat, e: Evidence) {
    forall k :: 0 <= k < n ==> PageAll(reg, want, DescriptorsAt(reg, url, k), e)
  }

  lemma ListingStep(reg: Registry, want: Want, url: string, n: nat, e: Evidence)
    requires n > 0 && reg.page(url).Page?
    requires n > 1 ==> reg.page(url).next.Continue?
    ensures ListingAll(reg, want, url, n, e) <==>
            PageAll(reg, want, reg.page(url).descriptors, e)
            && (n > 1 ==> ListingAll(reg, want, reg.page(url).next.url, n - 1, e))
  {
    hide PageAll, Judge;
    assert DescriptorsAt(reg, url, 0) == reg.page(url).descriptors;
    if n > 1 {
      var u := reg.page(url).next.url;
      assert forall k :: 1 <= k < n ==> DescriptorsAt(reg, url, k) == DescriptorsAt(reg, u, k - 1);
      assert forall k :: 0 <= k < n - 1 ==> DescriptorsAt(reg, u, k) == DescriptorsAt(reg, url, k + 1);
    }
  }

  /** Absent means the whole listing was walked and nothing in it was left unread. */
  lemma {:induction false} AbsentIsWalked(reg: Registry, want: Want, url: string, page: nat, budget: nat,
                                          deferred: bool)
    returns (n: nat)
    requires page <= MAX_PAGES && Walk(reg, want, url, page, budget, deferred) == Absent
    ensures !deferred || (page == 0 && reg.page(url).PageMissing?)
    ensures if page == 0 && reg.page(url).PageMissing? then n == 0
            else 1 <= n <= MAX_PAGES - page && ListingEnds(reg, url, n) && ListingAll(reg, want, url, n, No)
    decreases MAX_PAGES - page
  {
    hide Judge, Inspect, ListingAll, PageAll;
    n := 0;
    if reg.page(url).Page? {
      var ds := reg.page(url).descriptors;
      CandidatesSpec(reg, want, ds);
      ResolveSpec(reg, want, Candidates(reg, want, ds), budget);
      var r := ScanPage(reg, want, ds, budget);
      if reg.page(url).next.Continue? {
        n := AbsentIsWalked(reg, want, reg.page(url).next.url, page + 1, r.budget, deferred || r.deferred);
      }
      n := n + 1;
      ListingStep(reg, want, url, n, No);
    }
  }

  function FetchCount(reg: Registry, want: Want, ds: seq<Descriptor>): nat {
    if ds == [] then 0 else (if NeedsFetch(reg, want, ds[0]) then 1 else 0) + FetchCount(reg, want, ds[1..])
  }

  lemma {:induction false} CandidatesAreCounted(reg: Registry, want: Want, ds: seq<Descriptor>)
    ensures |Candidates(reg, want, ds)| == FetchCount(reg, want, ds)
    decreases |ds|
  {
    hide Triage, NeedsFetch;
    if ds != [] {
      FetchesExactly(reg, want, ds[0]);
      CandidatesAreCounted(reg, want, ds[1..]);
    }
  }

  /** How many fetches the first n pages could need. */
  function CandidateCount(reg: Registry, want: Want, url: string, n: nat): nat
    decreases n
  {
    if n == 0 || !reg.page(url).Page? then 0
    else
      FetchCount(reg, want, reg.page(url).descriptors)
      + if reg.page(url).next.Continue? then CandidateCount(reg, want, reg.page(url).next.url, n - 1) else 0
  }

  ghost predicate ListingHas(reg: Registry, want: Want, url: string, n: nat) {
    exists k :: 0 <= k < n && PageHas(reg, want, DescriptorsAt(reg, url, k), Yes)
  }

  lemma ListingHasStep(reg: Registry, want: Want, url: string, n: nat)
    requires n > 0 && reg.page(url).Page?
    requires n > 1 ==> reg.page(url).next.Continue?
    ensures ListingHas(reg, want, url, n) <==>
            PageHas(reg, want, reg.page(url).descriptors, Yes)
            || (n > 1 && ListingHas(reg, want, reg.page(url).next.url, n - 1))
  {
    hide PageHas, Judge;
    assert DescriptorsAt(reg, url, 0) == reg.page(url).descriptors;
    if n > 1 {
      var u := reg.page(url).next.url;
      assert forall k :: 1 <= k < n ==> DescriptorsAt(reg, url, k) == DescriptorsAt(reg, u, k - 1);
      assert forall k :: 0 <= k < n - 1 ==> DescriptorsAt(reg, u, k) == DescriptorsAt(reg, url, k + 1);
    }
  }

  /** A page within the budget left is decided exactly. */
  lemma PageOutcome(reg: Registry, want: Want, ds: seq<Descriptor>, budget: nat)
    requires FetchCount(reg, want, ds) <= budget
    ensures var r := ScanPage(reg, want, ds, budget);
            && (r.found <==> PageHas(reg, want, ds, Yes))
            && (!r.found && !r.deferred <==> PageAll(reg, want, ds, No))
            && (!r.found ==> r.budget == budget - FetchCount(reg, want, ds))
  {
    hide Candidates, Resolve, FetchCount, CandidateSays, CandidatesAll, Unreadable, Judge;
    CandidatesAreCounted(reg, want, ds);
    CandidatesSpec(reg, want, ds);
    ResolveSpec(reg, want, Candidates(reg, want, ds), budget);
    assert PageAll(reg, want, ds, No) ==> !PageHas(reg, want, ds, Yes);
  }

  /** Within both budgets the answer is exact. */
  lemma {:induction false} WithinBudgetsExact(reg: Registry, want: Want, url: string, n: nat,
                                              page: nat, budget: nat, deferred: bool)
    requires page + n <= MAX_PAGES && ListingEnds(reg, url, n) && CandidateCount(reg, want, url, n) <= budget
    ensures var v := Walk(reg, want, url, page, budget, deferred);
            && (v == Found <==> ListingHas(reg, want, url, n))
            && (v == Absent <==> !deferred && ListingAll(reg, want, url, n, No))
    decreases n
  {
    hide ScanPage, FetchCount, ListingAll, ListingHas, PageAll, PageHas;
    var ds := reg.page(url).descriptors;
    PageOutcome(reg, want, ds, budget);
    ListingStep(reg, want, url, n, No);
    ListingHasStep(reg, want, url, n);
    NoMeansNotYes(reg, want, url, n);
    var r := ScanPage(reg, want, ds, budget);
    if n > 1 {
      if !r.found {
        WithinBudgetsExact(reg, want, reg.page(url).next.url, n - 1, page + 1, r.budget, deferred || r.deferred);
      }
    }
  }

  lemma NoMeansNotYes(reg: Registry, want: Want, url: string, n: nat)
    ensures ListingAll(reg, want, url, n, No) ==> !ListingHas(reg, want, url, n)
  {
    hide Judge;
  }

  /** The first n pages of the listing are there. */
  predicate Reaches(reg: Registry, url: string, n: nat)
    decreases n
  {
    n > 0 ==>
      var p := reg.page(url);
      p.Page? && (n > 1 ==> p.next.Continue? && Reaches(reg, p.next.url, n - 1))
  }

  /** Positive evidence within both budgets is found, whatever the rest of the listing is. */
  lemma {:induction false} InReachIsFound(reg: Registry, want: Want, url: string, n: nat,
                                          page: nat, budget: nat, deferred: bool)
    requires page + n <= MAX_PAGES && Reaches(reg, url, n) && CandidateCount(reg, want, url, n) <= budget
    requires ListingHas(reg, want, url, n)
    ensures Walk(reg, want, url, page, budget, deferred) == Found
    decreases n
  {
    hide ScanPage, FetchCount, PageHas, PageAll, ListingHas;
    if n == 0 {
      NothingListed(reg, want, url);
    } else {
      var ds := reg.page(url).descriptors;
      PageOutcome(reg, want, ds, budget);
      ListingHasStep(reg, want, url, n);
      var r := ScanPage(reg, want, ds, budget);
      if !r.found {
        InReachIsFound(reg, want, reg.page(url).next.url, n - 1, page + 1, r.budget, deferred || r.deferred);
      }
    }
  }

  lemma NothingListed(reg: Registry, want: Want, url: string)
    ensures !ListingHas(reg, want, url, 0)
  {
  }

  // ── the three-valued contract of the search ─────────────────────────────────

  /** Some descriptor of the first n pages is a witness. */
  ghost predicate Witnessed(reg: Registry, want: Want, url: string, n: nat) {
    exists k, i :: 0 <= k < n && 0 <= i < |DescriptorsAt(reg, url, k)|
      && IsWitness(reg, want, DescriptorsAt(reg, url, k)[i])
  }

  /** Every descriptor of the first n pages is confirmed not to witness. */
  ghost predicate AllSettled(reg: Registry, want: Want, url: string, n: nat) {
    forall k, i :: 0 <= k < n && 0 <= i < |DescriptorsAt(reg, url, k)| ==>
      IsSettledNonWitness(reg, want, DescriptorsAt(reg, url, k)[i])
  }

  lemma ListingMeans(reg: Registry, want: Want, url: string, n: nat)
    ensures ListingHas(reg, want, url, n) <==> Witnessed(reg, want, url, n)
    ensures ListingAll(reg, want, url, n, No) <==> AllSettled(reg, want, url, n)
  {
    hide Judge, IsWitness, IsSettledNonWitness, DescriptorsAt;
    forall d ensures Judge(reg, want, d) == Yes <==> IsWitness(reg, want, d) { YesExactlyForWitnesses(reg, want, d); }
    forall d ensures Judge(reg, want, d) == No <==> IsSettledNonWitness(reg, want, d) {
      NoExactlyForSettled(reg, want, d);
    }
  }

  /**
   Found is sound, absent is complete: found only if a descriptor within the first sixteen pages is a
   ToolSpec referrer for this entry with its payload present; absent only if the first page is a
   confirmed 404, or the listing ends within sixteen pages and every descriptor in it is confirmed not to
   witness this entry, none because a manifest or payload could not be read. So a real witness anywhere in a
   listing is never reported absent.
   */
  lemma SearchIsSound(reg: Registry, want: Want, url: string)
    ensures Search(reg, want, url) == Found ==> Witnessed(reg, want, url, 16)
    ensures Search(reg, want, url) == Absent ==>
              reg.page(url).PageMissing? ||
              exists n :: 1 <= n <= 16 && ListingEnds(reg, url, n) && AllSettled(reg, want, url, n)
    ensures Search(reg, want, url) == Absent ==> forall n :: 0 <= n ==> !Witnessed(reg, want, url, n)
  {
    hide Judge, IsWitness, ListingAll, Walk, AllSettled;
    var v := Search(reg, want, url);
    if v == Found { FoundIsWitnessed(reg, want, url, 0, MAX_INSPECTIONS, false); }
    if v == Absent {
      var n := AbsentIsWalked(reg, want, url, 0, MAX_INSPECTIONS, false);
      ListingMeans(reg, want, url, n);
      forall k, i | 0 <= k && 0 <= i < |DescriptorsAt(reg, url, k)|
        ensures !IsWitness(reg, want, DescriptorsAt(reg, url, k)[i])
      {
        if n == 0 {
          NothingBeyond(reg, url, 0, k);
        } else {
          NothingBeyond(reg, url, n, k);
          ReadAndSettled(reg, want, url, n, k, i);
        }
      }
    }
  }

  lemma ReadAndSettled(reg: Registry, want: Want, url: string, n: nat, k: nat, i: nat)
    requires ListingAll(reg, want, url, n, No) && k < n && i < |DescriptorsAt(reg, url, k)|
    ensures !IsWitness(reg, want, DescriptorsAt(reg, url, k)[i])
  {
    hide IsWitness, Judge;
    YesExactlyForWitnesses(reg, want, DescriptorsAt(reg, url, k)[i]);
  }

  /** Past the end of a listing there is nothing. */
  lemma {:induction false} NothingBeyond(reg: Registry, url: string, n: nat, k: nat)
    requires if n == 0 then reg.page(url).PageMissing? else ListingEnds(reg, url, n)
    ensures k >= n ==> DescriptorsAt(reg, url, k) == []
    decreases n
  {
    if n > 1 && k > 0 {
      NothingBeyond(reg, reg.page(url).next.url, n - 1, k - 1);
      assert DescriptorsAt(reg, url, k) == DescriptorsAt(reg, reg.page(url).next.url, k - 1);
    }
  }

  /**
   The budgets are the only thing that can cost an answer: a listing that ends within sixteen pages
   and needs at most thirty-two fetches is answered found exactly when it holds a witness, and
   absent exactly when every descriptor in it is confirmed not to be one.
   */
  lemma SearchIsExactWithinBudgets(reg: Registry, want: Want, url: string, n: nat)
    requires want.referrerDigest != "" ==> reg.usable(want.referrerDigest)
    requires n <= 16 && ListingEnds(reg, url, n) && CandidateCount(reg, want, url, n) <= 32
    ensures Search(reg, want, url) == Found <==> Witnessed(reg, want, url, n)
    ensures Search(reg, want, url) == Absent <==> AllSettled(reg, want, url, n)
  {
    hide Witnessed, AllSettled, ListingHas, ListingAll, Walk;
    WithinBudgetsExact(reg, want, url, n, 0, MAX_INSPECTIONS, false);
    ListingMeans(reg, want, url, n);
  }

  /**
   Positive evidence outranks everything else: a witness among the first sixteen pages, on pages that need at most
   thirty-two fetches together, is found whatever could not be read before it and however the listing goes on.
   */
  lemma WitnessInReachIsFound(reg: Registry, want: Want, url: string, n: nat)
    requires want.referrerDigest != "" ==> reg.usable(want.referrerDigest)
    requires n <= 16 && Reaches(reg, url, n) && CandidateCount(reg, want, url, n) <= 32
    requires Witnessed(reg, want, url, n)
    ensures Search(reg, want, url) == Found
  {
    hide Witnessed, ListingHas, Walk;
    ListingMeans(reg, want, url, n);
    InReachIsFound(reg, want, url, n, 0, MAX_INSPECTIONS, false);
  }

  /**
   A subject without referrers is confirmed by the registry's 404 for the first page. A listing that breaks off in any
   other way, or does not end within sixteen pages, is never an absence: without a witness in it nothing is known.
   */
  lemma BrokenListings(reg: Registry, want: Want, url: string)
    requires want.referrerDigest != "" ==> reg.usable(want.referrerDigest)
    ensures reg.page(url).PageMissing? ==> Search(reg, want, url) == Absent
    ensures !reg.page(url).PageMissing? && (forall n :: 1 <= n <= 16 ==> !ListingEnds(reg, url, n))
            && !Witnessed(reg, want, url, 16)
            ==> Search(reg, want, url) == Indeterminate
  {
    hide Witnessed, AllSettled, ListingEnds;
    SearchIsSound(reg, want, url);
  }

  /** A manifest that could not be fetched: alone on its page, the answer is indeterminate, not absent. */
  lemma FailedFetchIsIndeterminate(reg: Registry, want: Want, url: string, d: Descriptor)
    requires reg.page(url) == Page([d], LastPage) && NeedsFetch(reg, want, d) && reg.manifest(d.digest).ManifestFailed?
    ensures Search(reg, want, url) == Indeterminate
  {
    hide Walk, NeedsFetch;
    assert ListingEnds(reg, url, 1) && DescriptorsAt(reg, url, 0) == [d];
    OneDescriptor(reg, want, d);
    SearchIsExactWithinBudgets(reg, want, url, 1);
    assert DescriptorsAt(reg, url, 0)[0] == d;
  }

  lemma OneDescriptor(reg: Registry, want: Want, d: Descriptor)
    ensures FetchCount(reg, want, [d]) <= 1
    ensures NeedsFetch(reg, want, d) && reg.manifest(d.digest).ManifestFailed? ==>
              !IsWitness(reg, want, d) && !IsSettledNonWitness(reg, want, d)
              && (want.referrerDigest != "" ==> reg.usable(want.referrerDigest))
  {
    assert [d][1..] == [];
  }

  /** What is answered before the walk. */
  lemma AnsweredBeforeTheWalk(reg: Registry, want: Want, imageRef: string, subject: string, firstPage: Option<string>)
    ensures imageRef == "" || subject == "" ==> Witness(reg, want, imageRef, subject, firstPage) == Absent
    ensures imageRef != "" && subject != ""
            && (firstPage.None? || (want.referrerDigest != "" && !reg.usable(want.referrerDigest)))
            ==> Witness(reg, want, imageRef, subject, firstPage) == Indeterminate
    ensures imageRef != "" && subject != "" && firstPage.Some?
            ==> Witness(reg, want, imageRef, subject, firstPage) == Search(reg, want, firstPage.value)
  {
  }
}
