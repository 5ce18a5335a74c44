/** Facts about sequences that several proofs share. */
module Sequences {

  lemma {:induction false} Regroup<T>(a: seq<T>, b: seq<T>, c: seq<T>)
    ensures (a + b) + c == a + (b + c)
  {
  }

  lemma {:induction false} SliceOfSlice<T>(s: seq<T>, a: nat, n: nat, p: nat, m: nat)
    requires a + n <= |s| && p + m <= n
    ensures s[a..a + n][p..p + m] == s[a + p..a + p + m]
  {
    var t := s[a..a + n];
    var l, r := t[p..p + m], s[a + p..a + p + m];
    forall q | 0 <= q < m ensures l[q] == r[q] {
      assert l[q] == t[p + q];
    }
  }
}
