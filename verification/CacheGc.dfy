/**
 One eviction pass over the package cache: oldest first until usage is at 80% of the high watermark.
 Usage is measured in whole MiB, rounded down; what eviction frees is counted in bytes. Arithmetic is int64.
 */
module CacheGc {
  import opened Sequences

  const MIB: int := 1024 * 1024
  const EVICT_TO_FRACTION: int := 80
  const TWO_63: int := 0x8000_0000_0000_0000
  const TWO_64: int := 0x1_0000_0000_0000_0000

  /** A top-level entry of the cache: a package directory measured recursively, or a tarball. */
  datatype Entry = Entry(path: string, sizeBytes: nat, modTime: nat)

  function Bytes(s: seq<Entry>): nat {
    if s == [] then 0 else Bytes(s[..|s| - 1]) + s[|s| - 1].sizeBytes
  }

  /** Two's complement wrap-around. */
  function Wrap64(x: int): (w: int)
    ensures -TWO_63 <= w < TWO_63
    ensures -TWO_63 <= x < TWO_63 ==> w == x
  {
    (x + TWO_63) % TWO_64 - TWO_63
  }

  /** Go's division truncates toward zero. */
  function Quo(a: int, b: int): int
    requires b > 0
  {
    if a >= 0 then a / b else -(-a / b)
  }

  /** As computed: three int64 operations. */
  function TargetBytes(watermarkMiB: int): int {
    Quo(Wrap64(Wrap64(watermarkMiB * MIB) * EVICT_TO_FRACTION), 100)
  }

  /** 80% of the watermark, in bytes. */
  function EightyPercent(watermarkMiB: nat): nat {
    watermarkMiB * MIB * EVICT_TO_FRACTION / 100
  }

  lemma WrapIsModular(x: int) returns (k: int)
    ensures Wrap64(x) == x - k * TWO_64
  {
    k := (x + TWO_63) / TWO_64;
  }

  /** The target is 80% of the watermark exactly for watermarks whose 80-fold fits an int64. */
  lemma TargetIsEightyPercentExactly(w: nat)
    ensures TargetBytes(w) == EightyPercent(w) <==> w * MIB * EVICT_TO_FRACTION < TWO_63
  {
    var exact := w * MIB * EVICT_TO_FRACTION;
    var k := WrapIsModular(w * MIB);
    var m := WrapIsModular(Wrap64(w * MIB) * EVICT_TO_FRACTION);
    var wrapped := Wrap64(Wrap64(w * MIB) * EVICT_TO_FRACTION);
    assert wrapped == exact - (EVICT_TO_FRACTION * k + m) * TWO_64;
    if exact >= TWO_63 {
      assert EVICT_TO_FRACTION * k + m >= 1;
      assert wrapped <= exact - TWO_64;
    }
  }

  // ── the pass ────────────────────────────────────────────────────────────────

  ghost predicate OldestFirst(s: seq<Entry>) {
    forall i, j :: 0 <= i < j < |s| ==> s[i].modTime <= s[j].modTime
  }

  lemma SwapKeepsElements(s: seq<Entry>, i: nat, j: nat)
    requires i < |s| && j < |s|
    ensures multiset(s[i := s[j]][j := s[i]]) == multiset(s)
  {
  }

  /** Everything before position n but the entry at j is in order, and nothing after j is older than it. */
  ghost predicate InOrderBut(s: seq<Entry>, j: int, n: nat) {
    && 0 <= j < n <= |s|
    && (forall k, l :: 0 <= k < l < n && k != j && l != j ==> s[k].modTime <= s[l].modTime)
    && (forall l :: j < l < n ==> s[j].modTime <= s[l].modTime)
  }

  lemma SwapStep(s: seq<Entry>, j: nat, n: nat)
    requires InOrderBut(s, j, n) && j > 0 && s[j].modTime < s[j - 1].modTime
    ensures InOrderBut(s[j := s[j - 1]][j - 1 := s[j]], j - 1, n)
  {
  }

  lemma InOrder(s: seq<Entry>, j: nat, n: nat)
    requires InOrderBut(s, j, n) && (j == 0 || s[j].modTime >= s[j - 1].modTime)
    ensures OldestFirst(s[..n])
  {
  }

  method InsertByAge(a: array<Entry>, i: nat)
    requires i < a.Length && OldestFirst(a[..i])
    modifies a
    ensures OldestFirst(a[..i + 1]) && multiset(a[..]) == multiset(old(a[..]))
  {
    hide InOrderBut, OldestFirst;
    var j := i;
    Starts(a[..], i);
    while j > 0 && a[j].modTime < a[j - 1].modTime
      invariant 0 <= j <= i && InOrderBut(a[..], j, i + 1)
      invariant multiset(a[..]) == multiset(old(a[..]))
    {
      ghost var before := a[..];
      SwapStep(before, j, i + 1);
      SwapKeepsElements(before, j, j - 1);
      a[j], a[j - 1] := a[j - 1], a[j];
      assert a[..] == before[j := before[j - 1]][j - 1 := before[j]];
      j := j - 1;
    }
    InOrder(a[..], j, i + 1);
    assert a[..][..i + 1] == a[..i + 1];
  }

  lemma Starts(s: seq<Entry>, i: nat)
    requires i < |s| && OldestFirst(s[..i])
    ensures InOrderBut(s, i, i + 1)
  {
    assert forall k :: 0 <= k < i ==> s[..i][k] == s[k];
  }

  /** sort.Slice by modification time; entries of the same age may come in any order. */
  method SortByAge(a: array<Entry>)
    modifies a
    ensures OldestFirst(a[..]) && multiset(a[..]) == multiset(old(a[..]))
  {
    var i := 0;
    while i < a.Length
      invariant 0 <= i <= a.Length && OldestFirst(a[..i])
      invariant multiset(a[..]) == multiset(old(a[..]))
    {
      assert a[..][..i] == a[..i];
      InsertByAge(a, i);
      i := i + 1;
    }
    assert a[..i] == a[..];
  }

  /** The cache directory. */
  class CacheDir {
    var entries: seq<Entry>

    constructor (found: seq<Entry>)
      ensures entries == found
    {
      entries := found;
    }

    /** DirUsageMiB. */
    method DirUsageMiB() returns (mib: nat)
      ensures mib == Bytes(entries) / MIB
    {
      var total := 0;
      var i := 0;
      while i < |entries|
        invariant 0 <= i <= |entries| && total == Bytes(entries[..i])
      {
        assert entries[..i + 1][..i] == entries[..i];
        total := total + entries[i].sizeBytes;
        i := i + 1;
      }
      assert entries[..i] == entries;
      mib := total / MIB;
    }

    /** os.RemoveAll: all of an entry, or an error. */
    method RemoveAll(e: Entry, removable: bool) returns (ok: bool)
      requires e in entries
      modifies this
      ensures ok == removable
      ensures multiset(entries) == if ok then multiset(old(entries)) - multiset{e} else multiset(old(entries))
    {
      if removable {
        var i := 0;
        while entries[i] != e
          invariant 0 <= i < |entries| && e in entries[i..]
          decreases |entries| - i
        {
          assert entries[i..] == [entries[i]] + entries[i + 1..];
          i := i + 1;
        }
        assert entries == entries[..i] + [e] + entries[i + 1..];
        entries := entries[..i] + entries[i + 1..];
      }
      ok := removable;
    }
  }

  /** The entries of a prefix that could be removed. */
  function Removed(s: seq<Entry>, removable: string -> bool): seq<Entry> {
    if s == [] then []
    else Removed(s[..|s| - 1], removable) + if removable(s[|s| - 1].path) then [s[|s| - 1]] else []
  }

  /** The pass stops after trying n entries: none earlier sufficed, and n did or everything was tried. */
  ghost predicate StopsAt(order: seq<Entry>, approx: int, target: int, removable: string -> bool, n: nat) {
    && n <= |order|
    && (n < |order| ==> approx - Bytes(Removed(order[..n], removable)) <= target)
    && forall j :: 0 <= j < n ==> approx - Bytes(Removed(order[..j], removable)) > target
  }

  lemma BytesOne(s: seq<Entry>, e: Entry)
    ensures Bytes(s + [e]) == Bytes(s) + e.sizeBytes
  {
    assert (s + [e])[..|s|] == s;
  }

  lemma PrefixStep(s: seq<Entry>, i: nat, removable: string -> bool)
    requires i < |s|
    ensures Removed(s[..i + 1], removable)
            == if removable(s[i].path) then Removed(s[..i], removable) + [s[i]] else Removed(s[..i], removable)
    ensures Bytes(Removed(s[..i + 1], removable))
            == Bytes(Removed(s[..i], removable)) + if removable(s[i].path) then s[i].sizeBytes else 0
  {
    hide Bytes;
    assert s[..i + 1][..i] == s[..i];
    BytesOne(Removed(s[..i], removable), s[i]);
  }

  /** The eviction loop over the sorted entries. */
  method Evict(cache: CacheDir, entries: array<Entry>, approxTotalBytes: int, targetBytes: int,
               removable: string -> bool)
    returns (ghost tried: nat)
    requires multiset(entries[..]) == multiset(cache.entries)
    modifies cache
    ensures tried <= entries.Length
    ensures StopsAt(entries[..], approxTotalBytes, targetBytes, removable, tried)
    ensures multiset(cache.entries)
            == multiset(old(cache.entries)) - multiset(Removed(entries[..][..tried], removable))
  {
    hide Bytes, Removed, Evicted, Tight;
    ghost var was := cache.entries;
    ghost var order := entries[..];
    var freedBytes := 0;
    var i := 0;
    tried := 0;
    NothingYet(removable);
    NothingEvicted(was, order, removable, approxTotalBytes, targetBytes);
    while i < entries.Length
      invariant 0 <= i <= entries.Length && tried == i
      invariant freedBytes == Bytes(Removed(order[..i], removable))
      invariant Tight(order, approxTotalBytes, targetBytes, removable, i)
      invariant Evicted(was, order, i, removable, cache.entries)
    {
      if approxTotalBytes - freedBytes <= targetBytes {
        break;
      }
      var e := entries[i];
      ghost var before := cache.entries;
      StillThere(was, order, i, removable, before);
      var ok := cache.RemoveAll(e, removable(e.path));
      EvictedStep(was, order, i, removable, before, cache.entries);
      TightStep(order, approxTotalBytes, targetBytes, removable, i);
      PrefixStep(order, i, removable);
      if ok {
        freedBytes := freedBytes + e.sizeBytes;
      }
      i := i + 1;
      tried := i;
    }
    EvictedAre(was, order, tried, removable, cache.entries);
    TightAre(order, approxTotalBytes, targetBytes, removable, tried);
  }

  /** After i tries, what could be removed of them is gone and the rest is still there. */
  ghost predicate Evicted(was: seq<Entry>, order: seq<Entry>, i: nat, removable: string -> bool, present: seq<Entry>) {
    && i <= |order|
    && multiset(present) == multiset(was) - multiset(Removed(order[..i], removable))
    && multiset(order[i..]) <= multiset(present)
  }

  /** No shorter prefix would have done. */
  ghost predicate Tight(order: seq<Entry>, approx: int, target: int, removable: string -> bool, n: nat) {
    n <= |order| && forall j :: 0 <= j < n ==> approx - Bytes(Removed(order[..j], removable)) > target
  }

  lemma NothingEvicted(was: seq<Entry>, order: seq<Entry>, removable: string -> bool, approx: int, target: int)
    requires multiset(order) == multiset(was)
    ensures Evicted(was, order, 0, removable, was) && Tight(order, approx, target, removable, 0)
    ensures order[..0] == []
  {
    assert order[0..] == order && order[..0] == [];
    NothingYet(removable);
  }

  lemma StillThere(was: seq<Entry>, order: seq<Entry>, i: nat, removable: string -> bool, present: seq<Entry>)
    requires i < |order| && Evicted(was, order, i, removable, present)
    ensures order[i] in present
  {
    assert order[i..][0] == order[i];
    assert order[i] in multiset(order[i..]);
    assert order[i] in multiset(present);
  }

  lemma EvictedStep(was: seq<Entry>, order: seq<Entry>, i: nat, removable: string -> bool,
                    before: seq<Entry>, after: seq<Entry>)
    requires i < |order| && Evicted(was, order, i, removable, before)
    requires multiset(after)
             == if removable(order[i].path) then multiset(before) - multiset{order[i]} else multiset(before)
    ensures Evicted(was, order, i + 1, removable, after)
  {
    hide Removed, Bytes;
    PrefixStep(order, i, removable);
    FirstOfTail(order, i);
  }

  lemma FirstOfTail(s: seq<Entry>, i: nat)
    requires i < |s|
    ensures multiset(s[i..]) == multiset{s[i]} + multiset(s[i + 1..])
  {
    assert s[i..] == [s[i]] + s[i + 1..];
  }

  lemma TightStep(order: seq<Entry>, approx: int, target: int, removable: string -> bool, i: nat)
    requires Tight(order, approx, target, removable, i) && i < |order|
    requires approx - Bytes(Removed(order[..i], removable)) > target
    ensures Tight(order, approx, target, removable, i + 1)
  {
    hide Removed, Bytes;
  }

  lemma EvictedAre(was: seq<Entry>, order: seq<Entry>, i: nat, removable: string -> bool, present: seq<Entry>)
    requires Evicted(was, order, i, removable, present)
    ensures multiset(present) == multiset(was) - multiset(Removed(order[..i], removable))
  {
  }

  lemma TightAre(order: seq<Entry>, approx: int, target: int, removable: string -> bool, n: nat)
    requires Tight(order, approx, target, removable, n)
    requires n == |order| || approx - Bytes(Removed(order[..n], removable)) <= target
    ensures StopsAt(order, approx, target, removable, n)
  {
    hide Removed, Bytes;
  }

  lemma NothingYet(removable: string -> bool)
    ensures Removed([], removable) == [] && Bytes([]) == 0
  {
  }

  function Approx(total: nat): nat {
    total / MIB * MIB
  }

  /**
   RunOnce. Under the watermark nothing happens; over it, the removable entries of a prefix in some
   oldest-first order are gone, and nothing else is.
   */
  method RunOnce(cache: CacheDir, dir: string, watermarkMiB: int, removable: string -> bool)
    returns (ghost order: seq<Entry>, ghost tried: nat)
    modifies cache
    ensures OldestFirst(order) && multiset(order) == multiset(old(cache.entries)) && tried <= |order|
    ensures if dir == "" || watermarkMiB <= 0 || Bytes(old(cache.entries)) / MIB <= watermarkMiB
            then cache.entries == old(cache.entries)
            else StopsAt(order, Approx(Bytes(old(cache.entries))), TargetBytes(watermarkMiB), removable, tried)
                 && multiset(cache.entries)
                    == multiset(old(cache.entries)) - multiset(Removed(order[..tried], removable))
  {
    hide Bytes, Removed, TargetBytes, StopsAt;
    var entries := new Entry[|cache.entries|](i requires 0 <= i < |cache.entries| reads cache => cache.entries[i]);
    assert entries[..] == cache.entries;
    SortByAge(entries);
    order, tried := entries[..], 0;
    if dir == "" || watermarkMiB <= 0 {
      return;
    }
    var usageMiB := cache.DirUsageMiB();
    if usageMiB <= watermarkMiB {
      return;
    }
    tried := Evict(cache, entries, usageMiB * MIB, TargetBytes(watermarkMiB), removable);
  }

  // ── the bound ───────────────────────────────────────────────────────────────

  lemma {:induction false} BytesAppend(a: seq<Entry>, b: seq<Entry>)
    ensures Bytes(a + b) == Bytes(a) + Bytes(b)
    decreases |b|
  {
    if b == [] {
      assert a + b == a;
    } else {
      assert (a + b)[..|a + b| - 1] == a + b[..|b| - 1];
      BytesAppend(a, b[..|b| - 1]);
    }
  }

  lemma CountWithout(p: seq<Entry>, e: Entry, q: seq<Entry>)
    ensures multiset(p + q) + multiset{e} == multiset(p + [e] + q)
    ensures Bytes(p + q) + e.sizeBytes == Bytes(p + [e] + q)
  {
    hide Bytes;
    BytesOne(p, e);
    BytesAppend(p + [e], q);
    BytesAppend(p, q);
  }

  lemma WithoutOne(s: seq<Entry>, j: nat)
    requires j < |s|
    ensures multiset(Without(s, j)) + multiset{s[j]} == multiset(s)
    ensures Bytes(Without(s, j)) + s[j].sizeBytes == Bytes(s)
  {
    hide Bytes;
    Recombine(s, j);
    CountWithout(s[..j], s[j], s[j + 1..]);
  }

  lemma {:induction false} BytesOfPermutation(a: seq<Entry>, b: seq<Entry>)
    requires multiset(a) == multiset(b)
    ensures Bytes(a) == Bytes(b)
    decreases |a|
  {
    hide Bytes, Without;
    if a == [] {
      assert |multiset(b)| == |b|;
    } else {
      assert a[0] in multiset(b);
      var j :| 0 <= j < |b| && b[j] == a[0];
      WithoutOne(a, 0);
      WithoutOne(b, j);
      CancelOne(multiset(Without(a, 0)), multiset(Without(b, j)), a[0]);
      BytesOfPermutation(Without(a, 0), Without(b, j));
    }
  }

  lemma {:induction false} AllRemoved(s: seq<Entry>, removable: string -> bool)
    requires forall i :: 0 <= i < |s| ==> removable(s[i].path)
    ensures Removed(s, removable) == s
    decreases |s|
  {
    if s != [] {
      AllRemoved(s[..|s| - 1], removable);
      assert s == s[..|s| - 1] + [s[|s| - 1]];
    }
  }

  lemma FreedIsPrefix(order: seq<Entry>, removable: string -> bool, n: nat)
    requires n <= |order| && forall i :: 0 <= i < |order| ==> removable(order[i].path)
    ensures Removed(order[..n], removable) == order[..n]
    ensures Bytes(order) == Bytes(order[..n]) + Bytes(order[n..])
  {
    hide Bytes, Removed;
    AllRemoved(order[..n], removable);
    assert order == order[..n] + order[n..];
    BytesAppend(order[..n], order[n..]);
  }

  /**
   The eviction bound. When deletions succeed, what is left is exactly the newest entries; it is less than
   80% of the watermark plus one MiB although the starting usage was rounded down; and the prefix is the
   shortest one that will do: any shorter one leaves more than 80% of the watermark.
   */
  lemma EvictionBound(was: seq<Entry>, left: seq<Entry>, order: seq<Entry>, w: nat, removable: string -> bool, n: nat)
    requires multiset(order) == multiset(was) && w * MIB * EVICT_TO_FRACTION < TWO_63
    requires forall i :: 0 <= i < |order| ==> removable(order[i].path)
    requires StopsAt(order, Approx(Bytes(was)), TargetBytes(w), removable, n)
    requires multiset(left) == multiset(was) - multiset(Removed(order[..n], removable))
    ensures multiset(left) == multiset(order[n..])
    ensures Bytes(left) < EightyPercent(w) + MIB
    ensures forall j :: 0 <= j < n ==> Bytes(order[j..]) > EightyPercent(w)
  {
    hide Bytes, Removed, TargetBytes, EightyPercent, Approx;
    TargetIsEightyPercentExactly(w);
    RoundingLosesLessThanOne(Bytes(was));
    BytesOfPermutation(order, was);
    FreedIsPrefix(order, removable, n);
    KeepsTheRest(was, left, order, n);
    BytesOfPermutation(left, order[n..]);
    if n == |order| { NothingYet(removable); }
    forall j | 0 <= j < n ensures Bytes(order[j..]) > EightyPercent(w) {
      FreedIsPrefix(order, removable, j);
    }
  }

  lemma RoundingLosesLessThanOne(total: nat)
    ensures Approx(total) <= total < Approx(total) + MIB
  {
  }

  lemma KeepsTheRest(was: seq<Entry>, left: seq<Entry>, order: seq<Entry>, n: nat)
    requires n <= |order| && multiset(order) == multiset(was)
    requires multiset(left) == multiset(was) - multiset(order[..n])
    ensures multiset(left) == multiset(order[n..])
  {
    assert order == order[..n] + order[n..];
  }

  /** When some deletions fail, the pass still ends under the same bound unless it has tried every entry. */
  lemma FailedDeletionsKeepTheBound(was: seq<Entry>, left: seq<Entry>, order: seq<Entry>, w: nat,
                                           removable: string -> bool, n: nat)
    requires multiset(order) == multiset(was) && w * MIB * EVICT_TO_FRACTION < TWO_63
    requires StopsAt(order, Approx(Bytes(was)), TargetBytes(w), removable, n)
    requires multiset(left) == multiset(was) - multiset(Removed(order[..n], removable))
    ensures n == |order| || Bytes(left) < EightyPercent(w) + MIB
  {
    hide Bytes, Removed, TargetBytes, EightyPercent, Approx;
    TargetIsEightyPercentExactly(w);
    RoundingLosesLessThanOne(Bytes(was));
    var gone := Removed(order[..n], removable);
    RemovedIsPart(order[..n], removable);
    assert order == order[..n] + order[n..];
    assert multiset(left + gone) == multiset(was);
    BytesOfPermutation(left + gone, was);
    BytesAppend(left, gone);
  }

  lemma {:induction false} RemovedIsPart(s: seq<Entry>, removable: string -> bool)
    ensures multiset(Removed(s, removable)) <= multiset(s)
    decreases |s|
  {
    if s != [] {
      RemovedIsPart(s[..|s| - 1], removable);
      assert s == s[..|s| - 1] + [s[|s| - 1]];
    }
  }

  /** Some oldest-first prefix leaves more than 80% of the watermark by less than the rounding dropped. */
  ghost predicate RoundingHides(order: seq<Entry>, total: nat, w: nat) {
    exists j :: 0 <= j <= |order| && EightyPercent(w) < Bytes(order[j..]) <= EightyPercent(w) + total % MIB
  }

  /**
   When deletions succeed, the pass reaches 80% of the watermark exactly when no oldest-first prefix leaves an
   amount over it by no more than the rounding of the starting usage dropped.
   */
  lemma EightyPercentReachedExactly(was: seq<Entry>, left: seq<Entry>, order: seq<Entry>, w: nat,
                                    removable: string -> bool, n: nat)
    requires multiset(order) == multiset(was) && w * MIB * EVICT_TO_FRACTION < TWO_63
    requires forall i :: 0 <= i < |order| ==> removable(order[i].path)
    requires StopsAt(order, Approx(Bytes(was)), TargetBytes(w), removable, n)
    requires multiset(left) == multiset(was) - multiset(Removed(order[..n], removable))
    ensures Bytes(left) <= EightyPercent(w) <==> !RoundingHides(order, Bytes(was), w)
  {
    hide Bytes, Removed, TargetBytes, EightyPercent, Approx;
    TargetIsEightyPercentExactly(w);
    RoundingLosesTheRemainder(Bytes(was));
    BytesOfPermutation(order, was);
    FreedIsPrefix(order, removable, n);
    KeepsTheRest(was, left, order, n);
    BytesOfPermutation(left, order[n..]);
    if n == |order| { NothingYet(removable); }
    if RoundingHides(order, Bytes(was), w) {
      var j :| 0 <= j <= |order| && EightyPercent(w) < Bytes(order[j..]) <= EightyPercent(w) + Bytes(was) % MIB;
      FreedIsPrefix(order, removable, j);
      TailsShrink(order, n, j);
    }
  }

  lemma RoundingLosesTheRemainder(total: nat)
    ensures Approx(total) == total - total % MIB
  {
  }

  lemma TailsShrink(order: seq<Entry>, n: nat, j: nat)
    requires n <= |order| && j <= |order|
    ensures n <= j ==> Bytes(order[j..]) <= Bytes(order[n..])
  {
    hide Bytes;
    if n <= j {
      assert order[n..] == order[n..j] + order[j..];
      BytesAppend(order[n..j], order[j..]);
    }
  }

  /** A usage of whole MiB is not rounded, so the pass then always reaches 80% of the watermark. */
  lemma WholeMiBReachesEightyPercent(was: seq<Entry>, left: seq<Entry>, order: seq<Entry>, w: nat,
                                     removable: string -> bool, n: nat)
    requires multiset(order) == multiset(was) && w * MIB * EVICT_TO_FRACTION < TWO_63
    requires forall i :: 0 <= i < |order| ==> removable(order[i].path)
    requires StopsAt(order, Approx(Bytes(was)), TargetBytes(w), removable, n)
    requires multiset(left) == multiset(was) - multiset(Removed(order[..n], removable))
    requires Bytes(was) % MIB == 0
    ensures Bytes(left) <= EightyPercent(w)
  {
    hide Bytes, Removed, TargetBytes, EightyPercent, Approx, StopsAt;
    EightyPercentReachedExactly(was, left, order, w, removable, n);
  }

  /** The MiB of slack is real: rounding down the starting usage can leave more than 80% of the watermark. */
  lemma RoundingCanStopEarly(removable: string -> bool)
    requires removable("old") && removable("new")
    ensures var order := [Entry("old", 21 * MIB, 1), Entry("new", 80 * MIB + MIB / 2, 2)];
            && Bytes(order) / MIB > 100
            && StopsAt(order, Approx(Bytes(order)), TargetBytes(100), removable, 1)
            && Bytes(order[1..]) > EightyPercent(100)
  {
    var old', new' := Entry("old", 21 * MIB, 1), Entry("new", 80 * MIB + MIB / 2, 2);
    var order := [old', new'];
    assert order[..1] == [old'] && order[1..] == [new'] && order[..0] == [];
    assert Bytes([old']) == 21 * MIB && Bytes([new']) == 80 * MIB + MIB / 2;
    assert Bytes(order) == Bytes([old']) + new'.sizeBytes;
    assert Removed([old'], removable) == [old'];
    assert Removed([], removable) == [];
  }

  // ── the pass in numbers ─────────────────────────────────────────────────────

  /** The quotient is cut off toward zero: what is left over is less than the divisor and has the dividend's sign. */
  lemma QuotientRule(a: int, b: int)
    requires b > 0
    ensures a >= 0 ==> 0 <= a - Quo(a, b) * b < b
    ensures a < 0 ==> -b < a - Quo(a, b) * b <= 0
  {
  }

  /** The 64-bit number that agrees with x up to a multiple of 2^64. */
  lemma WrapRule(x: int) returns (k: int)
    ensures -9223372036854775808 <= Wrap64(x) <= 9223372036854775807
    ensures x == Wrap64(x) + k * 18446744073709551616
  {
    k := WrapIsModular(x);
  }

  /**
   A pass over a watermark of w MiB tries entries in turn, counting usage from whole MiB of 1048576 bytes, until what
   it has counted as removed brings that down to 80 in a hundred of w MiB or it has tried them all.
   */
  lemma PassRule(order: seq<Entry>, total: nat, w: nat, removable: string -> bool, n: nat)
    requires w * 83886080 < 9223372036854775808
    ensures StopsAt(order, Approx(total), TargetBytes(w), removable, n) <==>
              && n <= |order|
              && (n < |order| ==>
                    total / 1048576 * 1048576 - Bytes(Removed(order[..n], removable)) <= w * 83886080 / 100)
              && (forall j :: 0 <= j < n ==>
                    total / 1048576 * 1048576 - Bytes(Removed(order[..j], removable)) > w * 83886080 / 100)
  {
    hide Bytes, Removed, TargetBytes;
    TargetIsEightyPercentExactly(w);
  }

  /** What a pass counts: the sizes of the entries that could be removed, each in full and no other. */
  lemma CountRule(s: seq<Entry>, e: Entry, removable: string -> bool)
    ensures Bytes([]) == 0 && Bytes(s + [e]) == Bytes(s) + e.sizeBytes
    ensures Removed([], removable) == []
    ensures removable(e.path) ==> Removed(s + [e], removable) == Removed(s, removable) + [e]
    ensures !removable(e.path) ==> Removed(s + [e], removable) == Removed(s, removable)
  {
    assert (s + [e])[..|s|] == s;
  }
}
