/** The order in which the store iterates keys: lexicographic on code points, the
    order of their UTF-8 bytes. (Dafny's own `<` on sequences is the proper-prefix
    relation, so the order is defined here.) */
module KeyOrder {

  /** `a` sorts strictly before `b`. */
  predicate Less(a: string, b: string)
    decreases |a|
  {
    |b| > 0 && (|a| == 0 || a[0] < b[0] || (a[0] == b[0] && Less(a[1..], b[1..])))
  }

  lemma {:induction false} LessIrreflexive(a: string)
    ensures !Less(a, a)
    decreases |a|
  {
    if |a| > 0 {
      LessIrreflexive(a[1..]);
    }
  }

  lemma {:induction false} LessTransitive(a: string, b: string, c: string)
    requires Less(a, b) && Less(b, c)
    ensures Less(a, c)
    decreases |a|
  {
    if |a| > 0 && a[0] == b[0] && b[0] == c[0] {
      LessTransitive(a[1..], b[1..], c[1..]);
    }
  }

  lemma {:induction false} LessTotal(a: string, b: string)
    ensures a == b || Less(a, b) || Less(b, a)
    decreases |a|
  {
    if |a| > 0 && |b| > 0 && a[0] == b[0] {
      LessTotal(a[1..], b[1..]);
      if a[1..] == b[1..] {
        assert a == [a[0]] + a[1..] && b == [b[0]] + b[1..];
      }
    }
  }

  lemma LessAsymmetric(a: string, b: string)
    requires Less(a, b)
    ensures !Less(b, a)
  {
    if Less(b, a) {
      LessTransitive(a, b, a);
      LessIrreflexive(a);
    }
  }

  /** Keys in strictly ascending order (so also free of duplicates). */
  predicate Increasing(ks: seq<string>)
  {
    forall i, j :: 0 <= i < j < |ks| ==> Less(ks[i], ks[j])
  }

  /** Every element of an increasing sequence lies above its head. */
  lemma HeadIsLeast(ks: seq<string>, x: string)
    requires Increasing(ks) && |ks| > 0 && x in ks[1..]
    ensures Less(ks[0], x)
  {
    var j :| 0 <= j < |ks[1..]| && ks[1..][j] == x;
    assert ks[j + 1] == x;
  }

  /** An increasing sequence is an increasing head followed by an increasing tail. */
  lemma IncreasingCons(k: string, ks: seq<string>)
    requires Increasing(ks)
    requires forall x :: x in ks ==> Less(k, x)
    ensures Increasing([k] + ks)
  {
    var r := [k] + ks;
    forall i, j | 0 <= i < j < |r|
      ensures Less(r[i], r[j])
    {
      if i == 0 {
        assert r[j] == ks[j - 1] && r[j] in ks;
      } else {
        assert r[i] == ks[i - 1] && r[j] == ks[j - 1];
      }
    }
  }

  /** A sequence sorted into ascending order has at most one index per key. */
  lemma IncreasingInjective(ks: seq<string>, i: int, j: int)
    requires Increasing(ks) && 0 <= i < |ks| && 0 <= j < |ks| && ks[i] == ks[j]
    ensures i == j
  {
    if i < j || j < i {
      LessIrreflexive(ks[i]);
    }
  }
}
