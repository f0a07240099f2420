/** A sequence without one of its elements, and multisets less one element. */
module Sequences {

  function Without<T>(s: seq<T>, j: nat): (r: seq<T>)
    requires j < |s|
    ensures |r| == |s| - 1
  {
    s[..j] + s[j + 1..]
  }

  lemma Recombine<T>(s: seq<T>, j: nat)
    requires j < |s|
    ensures s[..j] + [s[j]] + s[j + 1..] == s
  {
  }

  lemma TailOf<T>(s: seq<T>)
    requires s != []
    ensures s == [s[0]] + s[1..] && multiset(s[1..]) + multiset{s[0]} == multiset(s)
  {
    assert s == [s[0]] + s[1..];
  }

  lemma CancelOne<T>(p: multiset<T>, q: multiset<T>, x: T)
    requires p + multiset{x} == q + multiset{x}
    ensures p == q
  {
    assert p == p + multiset{x} - multiset{x};
  }
}
