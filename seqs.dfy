/** Facts about sequences the proofs share. */
module Seqs {

  lemma ConcatAssoc<T>(a: seq<T>, b: seq<T>, c: seq<T>)
    ensures (a + b) + c == a + (b + c)
  {
  }

  /** Replacing the element before position b, seen from the slices at b - 1. */
  lemma UpdateSlices<T>(m: seq<T>, b: nat, t: T)
    requires 0 < b <= |m|
    ensures m[..b][|m[..b]| - 1] == m[b - 1]
    ensures m[b - 1 := t][..b - 1] == m[..b][..|m[..b]| - 1]
    ensures m[b - 1 := t][b - 1..] == [t] + m[b..]
  {
  }
}
