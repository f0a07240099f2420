/** The order Go gives byte strings. */
module ByteOrder {

  /** bytes.Compare(a, b) < 0 */
  predicate Less(a: string, b: string) {
    b != "" && (a == "" || a[0] < b[0] || (a[0] == b[0] && Less(a[1..], b[1..])))
  }

  lemma {:induction false} LessTotal(a: string, b: string)
    ensures a == b || Less(a, b) || Less(b, a)
    ensures !(Less(a, b) && Less(b, a)) && !Less(a, a)
  {
    if a != "" {
      LessTotal(a[1..], a[1..]);
      if b != "" && a[0] == b[0] {
        LessTotal(a[1..], b[1..]);
        assert a == [a[0]] + a[1..] && b == [b[0]] + b[1..];
      }
    }
  }

  lemma {:induction false} LessTransitive(a: string, b: string, c: string)
    requires Less(a, b) && Less(b, c)
    ensures Less(a, c)
  {
    if a != "" && a[0] == b[0] && b[0] == c[0] {
      LessTransitive(a[1..], b[1..], c[1..]);
    }
  }

  /** The order is decided where the strings first differ, and a string comes before its extensions. */
  lemma {:induction false} LessExactly(a: string, b: string)
    ensures Less(a, b) <==>
            exists k :: 0 <= k <= |a| && k < |b| && a[..k] == b[..k] && (k == |a| || a[k] < b[k])
    decreases |a|
  {
    if Less(a, b) {
      if a == "" || a[0] < b[0] {
        assert a[..0] == b[..0];
      } else {
        LessExactly(a[1..], b[1..]);
        var k :| 0 <= k <= |a[1..]| && k < |b[1..]| && a[1..][..k] == b[1..][..k]
                 && (k == |a[1..]| || a[1..][k] < b[1..][k]);
        assert a[..k + 1] == [a[0]] + a[1..][..k] && b[..k + 1] == [b[0]] + b[1..][..k];
      }
    }
    if k :| 0 <= k <= |a| && k < |b| && a[..k] == b[..k] && (k == |a| || a[k] < b[k]) {
      LessAt(a, b, k);
    }
  }

  lemma {:induction false} LessAt(a: string, b: string, k: nat)
    requires k <= |a| && k < |b| && a[..k] == b[..k] && (k == |a| || a[k] < b[k])
    ensures Less(a, b)
    decreases k
  {
    if k > 0 {
      assert a[0] == a[..k][0] == b[..k][0] == b[0];
      assert a[1..][..k - 1] == a[..k][1..] && b[1..][..k - 1] == b[..k][1..];
      LessAt(a[1..], b[1..], k - 1);
    }
  }
}
