/**
 The ranked history of toolprofile referrers of one entry: most recent first, the latest three retained,
 the rest marked for collection with the time they were first marked. Times are naturals; 0 is Go's zero time.
 */
module ReferrerRanking {
  import opened ByteOrder
  import opened Sequences
  import opened SharedFile
  import opened Wrappers

  const RETAIN: nat := 3
  const RETAINED_LIMIT_EXCEEDED := "retained_limit_exceeded"

  datatype Mark = Unmarked | Active | GcCandidate

  datatype Referrer = Referrer(
    digest: string,
    validationRunId: string,
    validationStatus: string,
    validatedAt: nat,
    observedAt: nat,
    rank: nat,
    lifecycleStatus: Mark,
    gcReason: string,
    markedAt: nat)

  /** What recency is decided on. */
  datatype Key = Key(validatedAt: nat, observedAt: nat, digest: string)

  function KeyOf(r: Referrer): Key {
    Key(r.validatedAt, r.observedAt, r.digest)
  }

  predicate KeyBefore(a: Key, b: Key) {
    if a.validatedAt != b.validatedAt then a.validatedAt > b.validatedAt
    else if a.observedAt != b.observedAt then a.observedAt > b.observedAt
    else Less(a.digest, b.digest)
  }

  predicate Before(a: Referrer, b: Referrer) {
    KeyBefore(KeyOf(a), KeyOf(b))
  }

  lemma KeyBeforeTotal(a: Key, b: Key)
    ensures a == b || KeyBefore(a, b) || KeyBefore(b, a)
    ensures !(KeyBefore(a, b) && KeyBefore(b, a)) && !KeyBefore(a, a)
  {
    LessTotal(a.digest, b.digest);
  }

  lemma KeyBeforeTransitive(a: Key, b: Key, c: Key)
    requires KeyBefore(a, b) && KeyBefore(b, c)
    ensures KeyBefore(a, c)
  {
    if Less(a.digest, b.digest) && Less(b.digest, c.digest) { LessTransitive(a.digest, b.digest, c.digest); }
  }

  // ── ranking ─────────────────────────────────────────────────────────────────

  function Last<T>(s: seq<T>): T
    requires s != []
  {
    s[|s| - 1]
  }

  function Init<T>(s: seq<T>): seq<T>
    requires s != []
  {
    s[..|s| - 1]
  }

  /** Where a stable sort puts a newcomer: after everything it does not precede. */
  function Slot(s: seq<Referrer>, x: Referrer): (p: nat)
    ensures p <= |s|
    decreases |s|
  {
    if s == [] || !Before(x, Last(s)) then |s| else Slot(Init(s), x)
  }

  function Insert(s: seq<Referrer>, x: Referrer): seq<Referrer> {
    s[..Slot(s, x)] + [x] + s[Slot(s, x)..]
  }

  /** The stable sort. */
  function Sort(s: seq<Referrer>): (r: seq<Referrer>)
    ensures |r| == |s|
    decreases |s|
  {
    if s == [] then [] else Insert(Sort(Init(s)), Last(s))
  }

  function Marked(r: Referrer, i: nat, now: nat): Referrer {
    if i < RETAIN then r.(rank := i + 1, lifecycleStatus := Active, gcReason := "", markedAt := 0)
    else r.(rank := i + 1, lifecycleStatus := GcCandidate, gcReason := RETAINED_LIMIT_EXCEEDED,
            markedAt := if r.lifecycleStatus != GcCandidate then now else r.markedAt)
  }

  function MarkAll(s: seq<Referrer>, now: nat): seq<Referrer> {
    seq(|s|, i requires 0 <= i < |s| => Marked(s[i], i, now))
  }

  function Ranked(s: seq<Referrer>, now: nat): seq<Referrer> {
    MarkAll(Sort(s), now)
  }

  lemma SlotStep(s: seq<Referrer>, x: Referrer, j: nat)
    requires j <= |s| && Slot(s, x) == Slot(s[..j], x)
    ensures j > 0 && Before(x, s[j - 1]) ==> Slot(s, x) == Slot(s[..j - 1], x)
    ensures j == 0 || !Before(x, s[j - 1]) ==> Slot(s, x) == j
  {
    if j > 0 { assert Init(s[..j]) == s[..j - 1]; }
  }

  /** s with x put in at position j, and what follows. */
  ghost function Placed(s: seq<Referrer>, x: Referrer, rest: seq<Referrer>, j: nat): (p: seq<Referrer>)
    requires j <= |s|
    ensures |p| == |s| + 1 + |rest| && p[j] == x
    ensures j > 0 ==> p[j - 1] == s[j - 1]
  {
    s[..j] + [x] + s[j..] + rest
  }

  lemma PlacedOneLower(s: seq<Referrer>, x: Referrer, rest: seq<Referrer>, j: nat)
    requires 0 < j <= |s|
    ensures Placed(s, x, rest, j)[j := s[j - 1]][j - 1 := x] == Placed(s, x, rest, j - 1)
  {
  }

  lemma PlacedEnds(s: seq<Referrer>, x: Referrer, rest: seq<Referrer>)
    ensures Placed(s, x, rest, |s|) == s + [x] + rest
    ensures Placed(s, x, rest, Slot(s, x)) == Insert(s, x) + rest
    ensures s[..|s|] == s
  {
    assert s[|s|..] == [] && s[..|s|] == s;
    assert s + [x] + [] + rest == s + [x] + rest;
  }

  method InsertInPlace(refs: array<Referrer>, i: nat, ghost s: seq<Referrer>, ghost rest: seq<Referrer>)
    requires i < refs.Length && i == |s| && refs[..] == s + [refs[i]] + rest
    modifies refs
    ensures refs[..] == Insert(s, old(refs[i])) + rest
  {
    hide Placed, Slot, Insert, Before;
    ghost var x := refs[i];
    PlacedEnds(s, x, rest);
    var j := i;
    while j > 0 && Before(refs[j], refs[j - 1])
      invariant 0 <= j <= i
      invariant refs[..] == Placed(s, x, rest, j)
      invariant Slot(s, x) == Slot(s[..j], x)
    {
      ghost var before := refs[..];
      assert before[j] == x && before[j - 1] == s[j - 1];
      SlotStep(s, x, j);
      PlacedOneLower(s, x, rest, j);
      refs[j], refs[j - 1] := refs[j - 1], refs[j];
      assert refs[..] == before[j := s[j - 1]][j - 1 := x];
      j := j - 1;
    }
    assert refs[..][j] == x && (j > 0 ==> refs[..][j - 1] == s[j - 1]);
    SlotStep(s, x, j);
  }

  lemma SortStep(s: seq<Referrer>, i: nat)
    requires i < |s|
    ensures Sort(s[..i + 1]) == Insert(Sort(s[..i]), s[i])
  {
    assert Init(s[..i + 1]) == s[..i];
  }

  lemma Around(done: seq<Referrer>, was: seq<Referrer>, i: nat, all: seq<Referrer>)
    requires i < |was| && |done| == i && all == done + was[i..]
    ensures |all| == |was| && all[i] == was[i] && all == done + [was[i]] + was[i + 1..]
  {
    assert was[i..] == [was[i]] + was[i + 1..];
  }

  method SortInPlace(refs: array<Referrer>)
    modifies refs
    ensures refs[..] == Sort(old(refs[..]))
  {
    hide Insert, Sort;
    ghost var was := refs[..];
    ghost var done := [];
    var i := 0;
    assert was[..0] == [] && Sort([]) == [];
    while i < refs.Length
      invariant 0 <= i <= refs.Length
      invariant done == Sort(was[..i]) && refs[..] == done + was[i..]
    {
      ghost var rest := was[i + 1..];
      Around(done, was, i, refs[..]);
      assert refs[i] == refs[..][i];
      InsertInPlace(refs, i, done, rest);
      SortStep(was, i);
      done := Insert(done, was[i]);
      i := i + 1;
    }
    assert was[..i] == was && was[i..] == [];
  }

  method MarkInPlace(refs: array<Referrer>, now: nat)
    modifies refs
    ensures refs[..] == MarkAll(old(refs[..]), now)
  {
    var i := 0;
    while i < refs.Length
      invariant 0 <= i <= refs.Length
      invariant forall k :: 0 <= k < i ==> refs[k] == Marked(old(refs[k]), k, now)
      invariant forall k :: i <= k < refs.Length ==> refs[k] == old(refs[k])
    {
      var r := refs[i].(rank := i + 1);
      if i < RETAIN {
        r := r.(lifecycleStatus := Active, gcReason := "", markedAt := 0);
      } else {
        if r.lifecycleStatus != GcCandidate { r := r.(markedAt := now); }
        r := r.(lifecycleStatus := GcCandidate, gcReason := RETAINED_LIMIT_EXCEEDED);
      }
      refs[i] := r;
      i := i + 1;
    }
  }

  /** rankToolProfileReferrers: a stable sort and a marking loop, both in place. */
  method RankToolProfileReferrers(refs: array<Referrer>, now: nat)
    modifies refs
    ensures refs[..] == Ranked(old(refs[..]), now)
  {
    SortInPlace(refs);
    MarkInPlace(refs, now);
  }

  /** One push: append and re-rank the whole history. */
  function Push(h: seq<Referrer>, ref: Referrer, now: nat): seq<Referrer> {
    Ranked(h + [ref], now)
  }

  lemma FirstHasRankOne(h: seq<Referrer>, ref: Referrer, now: nat)
    ensures Push(h, ref, now) == Ranked(h + [ref], now)
    ensures Push(h, ref, now) != [] && Push(h, ref, now)[0].rank == 1
  {
  }

  /** The profile history of an index entry. */
  datatype Profile = Profile(casHash: string, referrers: seq<Referrer>, observedProfileDigest: string)

  datatype Error = NotFound | SaveFailed

  function FindProfile(ps: seq<Profile>, casHash: string): (i: Option<nat>)
    ensures i.Some? ==> i.value < |ps| && ps[i.value].casHash == casHash
    ensures i.Some? ==> forall j :: 0 <= j < i.value ==> ps[j].casHash != casHash
    ensures i.None? ==> forall j :: 0 <= j < |ps| ==> ps[j].casHash != casHash
  {
    if ps == [] then None
    else if ps[0].casHash == casHash then Some(0)
    else
      match FindProfile(ps[1..], casHash)
      case None => None
      case Some(i) => Some(i + 1)
  }

  /** The entries with one more referrer pushed onto the i-th. */
  function Recorded(ps: seq<Profile>, i: nat, ref: Referrer, now: nat): seq<Profile>
    requires i < |ps|
  {
    FirstHasRankOne(ps[i].referrers, ref, now);
    var pushed := Push(ps[i].referrers, ref, now);
    ps[i := ps[i].(referrers := pushed, observedProfileDigest := pushed[0].digest)]
  }

  /** The digest of rank 1. */
  method FirstRanked(refs: array<Referrer>, current: string) returns (digest: string)
    ensures refs.Length > 0 && refs[0].rank == 1 ==> digest == refs[0].digest
    ensures (forall i :: 0 <= i < refs.Length ==> refs[i].rank != 1) ==> digest == current
  {
    digest := current;
    var k := 0;
    while k < refs.Length
      invariant 0 <= k <= refs.Length && digest == current
      invariant forall j :: 0 <= j < k ==> refs[j].rank != 1
    {
      if refs[k].rank == 1 {
        return refs[k].digest;
      }
      k := k + 1;
    }
  }

  /** The histories as a Store keeps them, and the file all Stores write. */
  class ProfileStore {
    var profiles: seq<Profile>
    var seen: seq<Profile>
    var file: seq<Profile>
    ghost var exposed: set<seq<Profile>>

    ghost function Value(): Host<seq<Profile>>
      reads this
    {
      Host(profiles, seen, file, exposed)
    }

    constructor (stored: seq<Profile>)
      ensures Value() == Start(stored)
    {
      profiles, seen, file, exposed := stored, stored, stored, {stored};
    }

    method Save(w: Writing<seq<Profile>>) returns (ok: bool)
      modifies this
      ensures var s := Written(old(Value()), old(profiles), w); Value() == s.host && ok == s.ok
    {
      if w.theirs.Some? {
        file := w.theirs.value.to;
        exposed := if w.theirs.value.synced then {file} else exposed + {file};
      }
      ok := false;
      if w.save == Refused {
        return;
      }
      if seen != file {
        profiles, seen := file, file;
        return;
      }
      file, seen := profiles, profiles;
      if w.save == Synced {
        exposed := {file};
        ok := true;
      } else {
        exposed := exposed + {file};
      }
    }

    method FindIndex(casHash: string) returns (i: Option<nat>)
      ensures i == FindProfile(profiles, casHash)
    {
      i := None;
      var k := 0;
      while k < |profiles|
        invariant 0 <= k <= |profiles|
        invariant forall j :: 0 <= j < k ==> profiles[j].casHash != casHash
      {
        if profiles[k].casHash == casHash {
          return Some(k);
        }
        k := k + 1;
      }
    }

    /** A save that fails is reported and leaves the referrer in memory, unless it found the file moved. */
    method RecordToolProfileReferrer(casHash: string, ref: Referrer, now: nat, w: Writing<seq<Profile>>)
      returns (answer: Result<seq<Referrer>, Error>)
      modifies this
      ensures var was := old(Value());
              match FindProfile(was.mem, casHash)
              case None => Value() == was && answer == Err(NotFound)
              case Some(i) =>
                var s := Written(was, Recorded(was.mem, i, ref, now), w);
                Value() == s.host
                && answer == if s.ok then Ok(Push(was.mem[i].referrers, ref, now)) else Err(SaveFailed)
    {
      hide Push, Ranked, FindProfile;
      var found := FindIndex(casHash);
      if found.None? {
        return Err(NotFound);
      }
      var i := found.value;
      var grown := profiles[i].referrers + [ref];
      var refs := new Referrer[|grown|](k requires 0 <= k < |grown| => grown[k]);
      assert refs[..] == grown;
      RankToolProfileReferrers(refs, now);
      FirstHasRankOne(profiles[i].referrers, ref, now);
      assert refs[0] == refs[..][0];
      var digest := FirstRanked(refs, profiles[i].observedProfileDigest);
      assert refs[..] == Push(profiles[i].referrers, ref, now) && digest == refs[..][0].digest;
      profiles := profiles[i := profiles[i].(referrers := refs[..], observedProfileDigest := digest)];
      assert profiles == Recorded(old(profiles), i, ref, now);
      var ok := Save(w);
      answer := if ok then Ok(refs[..]) else Err(SaveFailed);
    }
  }

  // ── what a history satisfies ────────────────────────────────────────────────

  ghost predicate Sorted(s: seq<Referrer>) {
    forall i, j :: 0 <= i < j < |s| ==> !Before(s[j], s[i])
  }

  /** Sorted, ranked from 1, exactly the first three retained and the rest marked. */
  ghost predicate WellRanked(h: seq<Referrer>) {
    && Sorted(h)
    && forall i :: 0 <= i < |h| ==>
         h[i].rank == i + 1 && h[i].lifecycleStatus == (if i < RETAIN then Active else GcCandidate)
  }

  /** A referrer without what ranking writes. */
  function Facts(r: Referrer): Referrer {
    r.(rank := 0, lifecycleStatus := Unmarked, gcReason := "", markedAt := 0)
  }

  function FactsOf(s: seq<Referrer>): (f: seq<Referrer>)
    ensures |f| == |s|
  {
    seq(|s|, i requires 0 <= i < |s| => Facts(s[i]))
  }

  function KeysOf(s: seq<Referrer>): (k: seq<Key>)
    ensures |k| == |s|
  {
    seq(|s|, i requires 0 <= i < |s| => KeyOf(s[i]))
  }

  lemma {:induction false} SlotSpec(s: seq<Referrer>, x: Referrer)
    requires Sorted(s)
    ensures forall i :: 0 <= i < Slot(s, x) ==> !Before(x, s[i])
    ensures forall i :: Slot(s, x) <= i < |s| ==> Before(x, s[i])
    decreases |s|
  {
    hide KeyBefore;
    if s != [] {
      if Before(x, Last(s)) {
        SlotSpec(Init(s), x);
      } else {
        forall i | 0 <= i < |s| ensures !Before(x, s[i]) {
          KeyBeforeTotal(KeyOf(s[i]), KeyOf(Last(s)));
          if Before(x, s[i]) && i < |s| - 1 && KeyOf(s[i]) != KeyOf(Last(s)) {
            KeyBeforeTransitive(KeyOf(x), KeyOf(s[i]), KeyOf(Last(s)));
          }
        }
      }
    }
  }

  lemma InsertSorted(s: seq<Referrer>, x: Referrer)
    requires Sorted(s)
    ensures Sorted(Insert(s, x))
  {
    hide KeyBefore;
    SlotSpec(s, x);
    var p, r := Slot(s, x), Insert(s, x);
    assert forall k :: 0 <= k < |r| ==> r[k] == if k < p then s[k] else if k == p then x else s[k - 1];
    forall i, j | 0 <= i < j < |r| ensures !Before(r[j], r[i]) {
      KeyBeforeTotal(KeyOf(r[j]), KeyOf(r[i]));
    }
  }

  lemma ViewsSplit(s: seq<Referrer>, x: Referrer, t: seq<Referrer>)
    ensures FactsOf(s + [x] + t) == FactsOf(s) + [Facts(x)] + FactsOf(t)
    ensures KeysOf(s + [x] + t) == KeysOf(s) + [KeyOf(x)] + KeysOf(t)
    ensures FactsOf(s + t) == FactsOf(s) + FactsOf(t) && KeysOf(s + t) == KeysOf(s) + KeysOf(t)
  {
  }

  lemma {:induction false} SortSorts(s: seq<Referrer>)
    ensures Sorted(Sort(s))
    decreases |s|
  {
    hide Before, Insert;
    if s != [] {
      SortSorts(Init(s));
      InsertSorted(Sort(Init(s)), Last(s));
    }
  }

  lemma InsertPermutes(s: seq<Referrer>, x: Referrer)
    ensures multiset(FactsOf(Insert(s, x))) == multiset(FactsOf(s)) + multiset{Facts(x)}
    ensures multiset(KeysOf(Insert(s, x))) == multiset(KeysOf(s)) + multiset{KeyOf(x)}
  {
    hide FactsOf, KeysOf, Slot;
    var p := Slot(s, x);
    assert s == s[..p] + s[p..];
    ViewsSplit(s[..p], x, s[p..]);
  }

  /** Sorting loses and invents nothing. */
  lemma {:induction false} SortPermutes(s: seq<Referrer>)
    ensures multiset(FactsOf(Sort(s))) == multiset(FactsOf(s))
    ensures multiset(KeysOf(Sort(s))) == multiset(KeysOf(s))
    decreases |s|
  {
    hide FactsOf, KeysOf, Insert;
    if s != [] {
      SortPermutes(Init(s));
      InsertPermutes(Sort(Init(s)), Last(s));
      assert s == Init(s) + [Last(s)] + [] && Init(s) == Init(s) + [];
      ViewsSplit(Init(s), Last(s), []);
    }
  }

  lemma LastStays(s: seq<Referrer>)
    requires Sorted(s) && s != []
    ensures Insert(Init(s), Last(s)) == s
  {
    hide Before;
    var t, x := Init(s), Last(s);
    if t != [] { assert !Before(x, s[|s| - 2]); }
    assert Slot(t, x) == |t|;
    assert t[..|t|] == t && t[|t|..] == [];
  }

  /** The sort is stable: it leaves a sorted list alone. */
  lemma {:induction false} SortKeepsSorted(s: seq<Referrer>)
    requires Sorted(s)
    ensures Sort(s) == s
    decreases |s|
  {
    hide Before, Insert;
    if s != [] {
      SortKeepsSorted(Init(s));
      LastStays(s);
    }
  }

  lemma PushIs(h: seq<Referrer>, ref: Referrer, now: nat)
    requires Sorted(h)
    ensures Push(h, ref, now) == MarkAll(Insert(h, ref), now)
  {
    SortKeepsSorted(h);
    assert Init(h + [ref]) == h && Last(h + [ref]) == ref;
  }

  lemma PushIsRanked(h: seq<Referrer>, ref: Referrer, now: nat)
    ensures WellRanked(Push(h, ref, now))
    ensures multiset(FactsOf(Push(h, ref, now))) == multiset(FactsOf(h)) + multiset{Facts(ref)}
    ensures multiset(KeysOf(Push(h, ref, now))) == multiset(KeysOf(h)) + multiset{KeyOf(ref)}
  {
    hide KeyBefore;
    var all, sorted := h + [ref], Sort(h + [ref]);
    SortSorts(all);
    SortPermutes(all);
    var next := MarkAll(sorted, now);
    assert forall k :: 0 <= k < |next| ==> KeyOf(next[k]) == KeyOf(sorted[k]) && Facts(next[k]) == Facts(sorted[k]);
    assert FactsOf(next) == FactsOf(sorted) && KeysOf(next) == KeysOf(sorted);
    assert all == h + [ref] + [] && h == h + [];
    ViewsSplit(h, ref, []);
  }

  /** Every history is well ranked and shows the digest of its first referrer. */
  ghost predicate AllRanked(ps: seq<Profile>) {
    forall i :: 0 <= i < |ps| ==>
      && WellRanked(ps[i].referrers)
      && (ps[i].referrers != [] ==> ps[i].observedProfileDigest == ps[i].referrers[0].digest)
  }

  /** Whatever becomes of the save, recording a referrer leaves every content of the host ranked. */
  lemma RecordingKeepsRanked(h: Host<seq<Profile>>, i: nat, ref: Referrer, now: nat, w: Writing<seq<Profile>>)
    requires forall ps :: ps in Contents(h) ==> AllRanked(ps)
    requires w.theirs.Some? ==> AllRanked(w.theirs.value.to)
    requires i < |h.mem|
    ensures forall ps :: ps in Contents(Written(h, Recorded(h.mem, i, ref, now), w).host) ==> AllRanked(ps)
  {
    hide WellRanked, Push, Written, Contents;
    var next := Recorded(h.mem, i, ref, now);
    assert h.mem in Contents(h) by { MemoryIsAContent(h); }
    PushIsRanked(h.mem[i].referrers, ref, now);
    assert AllRanked(next);
    forall ps | ps in Contents(Written(h, next, w).host) ensures AllRanked(ps) {
      WrittenContents(h, next, w, ps);
    }
  }

  lemma MemoryIsAContent<T>(h: Host<T>)
    ensures h.mem in Contents(h)
  {
  }

  // ── push histories ──────────────────────────────────────────────────────────

  datatype Pushed = Pushed(ref: Referrer, now: nat)

  function After(h: seq<Referrer>, ps: seq<Pushed>): seq<Referrer>
    decreases |ps|
  {
    if ps == [] then h else After(Push(h, ps[0].ref, ps[0].now), ps[1..])
  }

  function Refs(ps: seq<Pushed>): (r: seq<Referrer>)
    ensures |r| == |ps|
  {
    seq(|ps|, i requires 0 <= i < |ps| => ps[i].ref)
  }

  lemma {:induction false} AfterIsRanked(h: seq<Referrer>, ps: seq<Pushed>)
    requires WellRanked(h)
    ensures WellRanked(After(h, ps))
    ensures multiset(FactsOf(After(h, ps))) == multiset(FactsOf(h)) + multiset(FactsOf(Refs(ps)))
    ensures multiset(KeysOf(After(h, ps))) == multiset(KeysOf(h)) + multiset(KeysOf(Refs(ps)))
    decreases |ps|
  {
    hide WellRanked, FactsOf, KeysOf, Push;
    if ps == [] {
      assert FactsOf(Refs(ps)) == [] && KeysOf(Refs(ps)) == [];
    } else {
      PushIsRanked(h, ps[0].ref, ps[0].now);
      AfterIsRanked(Push(h, ps[0].ref, ps[0].now), ps[1..]);
      assert Refs(ps) == [] + [ps[0].ref] + Refs(ps[1..]);
      assert [] + Refs(ps[1..]) == Refs(ps[1..]);
      ViewsSplit([], ps[0].ref, Refs(ps[1..]));
      assert FactsOf([]) == [] && KeysOf([]) == [];
    }
  }

  /**
   Over any pushes the history is everything pushed, most recent first, ranked from 1, with exactly the
   first three retained; the observed digest, the one of rank 1, belongs to a most recent push.
   */
  lemma HistoryIsRanked(ps: seq<Pushed>)
    ensures var h := After([], ps);
            && WellRanked(h)
            && multiset(FactsOf(h)) == multiset(FactsOf(Refs(ps)))
            && |h| == |ps|
            && (forall i :: 0 <= i < |h| && h != [] ==> !Before(h[i], h[0]))
  {
    AfterIsRanked([], ps);
    var h := After([], ps);
    assert |multiset(FactsOf(h))| == |FactsOf(h)|;
    assert |multiset(FactsOf(Refs(ps)))| == |ps|;
    if h != [] { KeyBeforeTotal(KeyOf(h[0]), KeyOf(h[0])); }
  }

  ghost predicate KeysSorted(k: seq<Key>) {
    forall i, j :: 0 <= i < j < |k| ==> !KeyBefore(k[j], k[i])
  }

  lemma HeadsAgree(a: seq<Key>, b: seq<Key>)
    requires KeysSorted(a) && KeysSorted(b) && multiset(a) == multiset(b) && a != []
    ensures b != [] && a[0] == b[0]
  {
    hide KeyBefore;
    assert a[0] in multiset(b) && a[0] in b;
    assert b[0] in multiset(a) && b[0] in a;
    KeyBeforeTotal(a[0], b[0]);
  }

  lemma {:induction false} SortedKeysAreUnique(a: seq<Key>, b: seq<Key>)
    requires KeysSorted(a) && KeysSorted(b) && multiset(a) == multiset(b)
    ensures a == b
    decreases |a|
  {
    hide KeyBefore;
    if a == [] {
      assert |multiset(b)| == |b|;
    } else {
      HeadsAgree(a, b);
      TailOf(a);
      TailOf(b);
      CancelOne(multiset(a[1..]), multiset(b[1..]), a[0]);
      SortedKeysAreUnique(a[1..], b[1..]);
    }
  }

  /** The ranking depends on what was pushed and not on the order it was pushed in. */
  lemma RankingIgnoresPushOrder(ps: seq<Pushed>, qs: seq<Pushed>)
    requires multiset(KeysOf(Refs(ps))) == multiset(KeysOf(Refs(qs)))
    ensures KeysOf(After([], ps)) == KeysOf(After([], qs))
  {
    hide KeysSorted, KeysOf, After, Refs;
    KeysAfter(ps);
    KeysAfter(qs);
    SortedKeysAreUnique(KeysOf(After([], ps)), KeysOf(After([], qs)));
  }

  lemma KeysAfter(ps: seq<Pushed>)
    ensures KeysSorted(KeysOf(After([], ps))) && multiset(KeysOf(After([], ps))) == multiset(KeysOf(Refs(ps)))
  {
    hide KeyBefore, After, Refs;
    AfterIsRanked([], ps);
    assert KeysOf([]) == [];
  }

  // ── marks ───────────────────────────────────────────────────────────────────

  /** Where a push moves the referrer at position p. */
  function MovesTo(h: seq<Referrer>, ref: Referrer, p: nat): nat {
    if p < Slot(h, ref) then p else p + 1
  }

  /** A push moves each referrer down by at most one place; its mark is fixed by where it was and where it lands. */
  lemma PushMoves(h: seq<Referrer>, ref: Referrer, now: nat, p: nat)
    requires WellRanked(h) && p < |h|
    ensures var q, next := MovesTo(h, ref, p), Push(h, ref, now);
            && p <= q <= p + 1 && q < |next|
            && Facts(next[q]) == Facts(h[p])
            && (q < RETAIN ==> next[q].lifecycleStatus == Active && next[q].markedAt == 0)
            && (p < RETAIN <= q ==> next[q].lifecycleStatus == GcCandidate && next[q].markedAt == now)
            && (RETAIN <= p ==> next[q].lifecycleStatus == GcCandidate && next[q].markedAt == h[p].markedAt)
  {
    hide Before, Slot, Insert, Sorted;
    PushIs(h, ref, now);
    InsertMoves(h, ref, p);
  }

  lemma InsertMoves(h: seq<Referrer>, ref: Referrer, p: nat)
    requires p < |h|
    ensures |Insert(h, ref)| == |h| + 1 && Insert(h, ref)[MovesTo(h, ref, p)] == h[p]
  {
    hide Slot;
  }

  /** Once a collection candidate, always one, and the time it was first marked never changes. */
  lemma {:induction false} CandidateStays(h: seq<Referrer>, ps: seq<Pushed>, p: nat) returns (q: nat)
    requires WellRanked(h) && p < |h| && h[p].lifecycleStatus == GcCandidate
    ensures var last := After(h, ps);
            && p <= q < |last| && Facts(last[q]) == Facts(h[p])
            && last[q].lifecycleStatus == GcCandidate && last[q].markedAt == h[p].markedAt
    decreases |ps|
  {
    q := p;
    if ps != [] {
      var ref, now := ps[0].ref, ps[0].now;
      PushMoves(h, ref, now, p);
      PushIsRanked(h, ref, now);
      q := CandidateStays(Push(h, ref, now), ps[1..], MovesTo(h, ref, p));
    }
  }

  // ── the ranking, field by field ─────────────────────────────────────────────

  /** Validated later; or at the same time and observed later; or that too and smaller by digest, byte by byte. */
  predicate Newer(a: Referrer, b: Referrer) {
    || a.validatedAt > b.validatedAt
    || (a.validatedAt == b.validatedAt && a.observedAt > b.observedAt)
    || (a.validatedAt == b.validatedAt && a.observedAt == b.observedAt && Less(a.digest, b.digest))
  }

  lemma SortsByAge(s: seq<Referrer>, i: nat, j: nat)
    requires i < j < |s|
    ensures !Newer(Sort(s)[j], Sort(s)[i])
  {
    SortSorts(s);
    assert !Before(Sort(s)[j], Sort(s)[i]);
  }

  /**
   A push puts the newcomer behind every referrer that is not older and in front of the others, which keep their
   order. The first three are then ACTIVE with no reason and no mark; every other is a candidate because the limit
   is exceeded, marked now unless it was a candidate before.
   */
  lemma PushRule(h: seq<Referrer>, ref: Referrer, now: nat) returns (p: nat)
    requires Sorted(h)
    ensures p <= |h| && |Push(h, ref, now)| == |h| + 1
    ensures (forall i :: 0 <= i < p ==> !Newer(ref, h[i])) && (forall i :: p <= i < |h| ==> Newer(ref, h[i]))
    ensures forall i :: 0 <= i <= |h| ==>
              var was, r := if i < p then h[i] else if i == p then ref else h[i - 1], Push(h, ref, now)[i];
              r == Referrer(
                digest := was.digest,
                validationRunId := was.validationRunId,
                validationStatus := was.validationStatus,
                validatedAt := was.validatedAt,
                observedAt := was.observedAt,
                rank := i + 1,
                lifecycleStatus := if i < 3 then Active else GcCandidate,
                gcReason := if i < 3 then "" else "retained_limit_exceeded",
                markedAt := if i < 3 then 0 else if was.lifecycleStatus == GcCandidate then was.markedAt else now)
  {
    hide Slot, Sorted, KeyBefore;
    PushIs(h, ref, now);
    SlotSpec(h, ref);
    p := Slot(h, ref);
    forall i | 0 <= i < |h| ensures Before(ref, h[i]) <==> Newer(ref, h[i]) { NewerIs(ref, h[i]); }
    var next := Insert(h, ref);
    assert forall i :: 0 <= i <= |h| ==> next[i] == if i < p then h[i] else if i == p then ref else h[i - 1];
  }

  lemma NewerIs(a: Referrer, b: Referrer)
    ensures Before(a, b) <==> Newer(a, b)
  {
  }

  /** Recording touches one entry: its history, and the digest it shows, which is the first one's. */
  lemma RecordingRule(ps: seq<Profile>, i: nat, ref: Referrer, now: nat)
    requires i < |ps|
    ensures var pushed := Push(ps[i].referrers, ref, now);
            pushed != [] && Recorded(ps, i, ref, now) == ps[i := Profile(ps[i].casHash, pushed, pushed[0].digest)]
  {
    hide Push;
    FirstHasRankOne(ps[i].referrers, ref, now);
  }
}
