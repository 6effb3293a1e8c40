/**
 * Network byte order: the `WriteHtonU16/32/64` and `ReadNtohU16/32/64` calls of an ns-3
 * `Buffer::Iterator`, as functions from an unsigned value to its big-endian bytes and back.
 */
module ByteOrder {
  import opened Ints

  /** 256^n: the number of distinct values an n-byte field can hold. */
  function Pow256(n: nat): (r: nat)
    ensures r > 0
  {
    if n == 0 then 1 else 256 * Pow256(n - 1)
  }

  lemma DivBound(x: nat, n: nat)
    requires n > 0 && x < Pow256(n)
    ensures x / 256 < Pow256(n - 1)
  {
  }

  /** The n-byte big-endian (most significant byte first) encoding of x. */
  function ToBigEndian(x: nat, n: nat): (r: seq<u8>)
    requires x < Pow256(n)
    ensures |r| == n
    decreases n
  {
    if n == 0 then []
    else
      DivBound(x, n);
      ToBigEndian(x / 256, n - 1) + [x % 256]
  }

  /** The value of a big-endian byte string. */
  function FromBigEndian(s: seq<u8>): (r: nat)
    ensures r < Pow256(|s|)
  {
    if s == [] then 0
    else
      var r' := FromBigEndian(s[..|s| - 1]);
      assert r' * 256 + s[|s| - 1] < Pow256(|s|) by {
        assert r' <= Pow256(|s| - 1) - 1;
        assert r' * 256 <= (Pow256(|s| - 1) - 1) * 256;
      }
      r' * 256 + s[|s| - 1]
  }

  /** Reading back what was written gives the value written. */
  lemma {:induction false} FromToBigEndian(x: nat, n: nat)
    requires x < Pow256(n)
    ensures FromBigEndian(ToBigEndian(x, n)) == x
    decreases n
  {
    if n > 0 {
      DivBound(x, n);
      var s := ToBigEndian(x, n);
      assert s[..n - 1] == ToBigEndian(x / 256, n - 1);
      FromToBigEndian(x / 256, n - 1);
    }
  }

  /** Every byte string is the encoding of the value it reads as. */
  lemma {:induction false} ToFromBigEndian(s: seq<u8>)
    ensures ToBigEndian(FromBigEndian(s), |s|) == s
  {
    if s != [] {
      var p, b := s[..|s| - 1], s[|s| - 1];
      var x := FromBigEndian(s);
      assert x == FromBigEndian(p) * 256 + b;
      assert x / 256 == FromBigEndian(p) && x % 256 == b;
      ToFromBigEndian(p);
      assert s == p + [b];
    }
  }

  lemma SliceOfConcat(a: seq<u8>, c: seq<u8>)
    ensures (a + c)[|a|..|a| + |c|] == c
  {
  }

  lemma SliceOfPrefix(a: seq<u8>, c: seq<u8>, i: nat, j: nat)
    requires i <= j <= |a|
    ensures (a + c)[i..j] == a[i..j]
  {
  }

  lemma Pow256Widths()
    ensures Pow256(1) == 0x100 && Pow256(2) == 0x1_0000
    ensures Pow256(4) == 0x1_0000_0000 && Pow256(8) == 0x1_0000_0000_0000_0000
  {
  }

  /** `WriteU8`, `WriteHtonU16`, `WriteHtonU32`, `WriteHtonU64` */
  function WriteU8(x: u8): (r: seq<u8>) ensures |r| == 1 { [x] }
  function WriteHtonU16(x: u16): (r: seq<u8>) ensures |r| == 2 { Pow256Widths(); ToBigEndian(x, 2) }
  function WriteHtonU32(x: u32): (r: seq<u8>) ensures |r| == 4 { Pow256Widths(); ToBigEndian(x, 4) }
  function WriteHtonU64(x: u64): (r: seq<u8>) ensures |r| == 8 { Pow256Widths(); ToBigEndian(x, 8) }

  /** `ReadNtohU16`, `ReadNtohU32`, `ReadNtohU64` over exactly the bytes they consume */
  function ReadNtohU16(s: seq<u8>): (r: u16) requires |s| == 2 { Pow256Widths(); FromBigEndian(s) }
  function ReadNtohU32(s: seq<u8>): (r: u32) requires |s| == 4 { Pow256Widths(); FromBigEndian(s) }
  function ReadNtohU64(s: seq<u8>): (r: u64) requires |s| == 8 { Pow256Widths(); FromBigEndian(s) }

  lemma RoundTripU16(x: u16) ensures ReadNtohU16(WriteHtonU16(x)) == x { Pow256Widths(); FromToBigEndian(x, 2); }
  lemma RoundTripU32(x: u32) ensures ReadNtohU32(WriteHtonU32(x)) == x { Pow256Widths(); FromToBigEndian(x, 4); }
  lemma RoundTripU64(x: u64) ensures ReadNtohU64(WriteHtonU64(x)) == x { Pow256Widths(); FromToBigEndian(x, 8); }

  lemma BytesU16(s: seq<u8>) requires |s| == 2 ensures WriteHtonU16(ReadNtohU16(s)) == s { ToFromBigEndian(s); }
  lemma BytesU32(s: seq<u8>) requires |s| == 4 ensures WriteHtonU32(ReadNtohU32(s)) == s { ToFromBigEndian(s); }
  lemma BytesU64(s: seq<u8>) requires |s| == 8 ensures WriteHtonU64(ReadNtohU64(s)) == s { ToFromBigEndian(s); }
}
