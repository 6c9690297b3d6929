/** The code-point order both JSON encoders sort object keys by. */
module TextOrder {

  predicate Less(a: string, b: string) {
    if b == "" then false
    else if a == "" then true
    else if a[0] != b[0] then a[0] < b[0]
    else Less(a[1..], b[1..])
  }

  lemma {:induction false} LessTotal(a: string, b: string)
    ensures Less(a, b) || Less(b, a) || a == b
  {
    if a != "" && b != "" && a[0] == b[0] {
      LessTotal(a[1..], b[1..]);
      assert a == [a[0]] + a[1..] && b == [b[0]] + b[1..];
    }
  }

  lemma {:induction false} LessAsymmetric(a: string, b: string)
    requires Less(a, b)
    ensures !Less(b, a) && a != b
  {
    if a != "" && a[0] == b[0] {
      LessAsymmetric(a[1..], b[1..]);
    }
  }

  lemma {:induction false} LessIrreflexive(a: string)
    ensures !Less(a, a)
  {
    if a != "" { LessIrreflexive(a[1..]); }
  }

  lemma {:induction false} LessTransitive(a: string, b: string, c: string)
    requires Less(a, b) && Less(b, c)
    ensures Less(a, c)
  {
    if a != "" && a[0] == b[0] == c[0] {
      LessTransitive(a[1..], b[1..], c[1..]);
    }
  }

  /** The first difference decides: the smaller character, or the end of the shorter text. */
  ghost predicate DiffersAt(a: string, b: string, k: int) {
    && 0 <= k <= |a| && k < |b|
    && (forall i :: 0 <= i < k ==> a[i] == b[i])
    && (k == |a| || a[k] < b[k])
  }

  lemma {:induction false} LessIsByFirstDifference(a: string, b: string)
    ensures Less(a, b) <==> exists k :: DiffersAt(a, b, k)
  {
    if b != "" && a != "" && a[0] == b[0] {
      LessIsByFirstDifference(a[1..], b[1..]);
      if k :| DiffersAt(a[1..], b[1..], k) { DiffersLater(a, b, k); }
      if k :| DiffersAt(a, b, k) {
        assert k > 0;
        DiffersEarlier(a, b, k);
      }
    } else if a == "" && b != "" {
      assert DiffersAt(a, b, 0);
    } else if b != "" && a[0] < b[0] {
      assert DiffersAt(a, b, 0);
    }
  }

  lemma DiffersLater(a: string, b: string, k: int)
    requires a != "" && b != "" && a[0] == b[0] && DiffersAt(a[1..], b[1..], k)
    ensures DiffersAt(a, b, k + 1)
  {
    forall i | 0 <= i < k + 1 ensures a[i] == b[i] { if i > 0 { assert a[1..][i - 1] == b[1..][i - 1]; } }
  }

  lemma DiffersEarlier(a: string, b: string, k: int)
    requires a != "" && b != "" && k > 0 && DiffersAt(a, b, k)
    ensures DiffersAt(a[1..], b[1..], k - 1)
  {
  }
}
