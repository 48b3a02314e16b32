/**
 * FNV-1, 64-bit (hash/fnv New64) as used by pipy/util/hash.go: start from the offset
 * basis and, for every byte, multiply by the FNV prime modulo 2^64 and then xor the byte
 * into the low bits (the FNV-1 order described in draft-eastlake-fnv, section 2).
 */
module Fnv {
  import opened Wrappers
  import opened Bytes

  const OffsetBasis: bv64 := 0xcbf2_9ce4_8422_2325
  const Prime: bv64 := 0x0000_0100_0000_01b3

  function Step(h: bv64, b: Byte): bv64 {
    (h * Prime) ^ (b as bv64)
  }

  /** The running hash after feeding the bytes of s to a hash whose state is h. */
  function Fold(h: bv64, s: seq<Byte>): bv64
    decreases |s|
  {
    if s == [] then h else Fold(Step(h, s[0]), s[1..])
  }

  /** Sum64 of a fresh New64 after one Write of s. */
  function Sum64(s: seq<Byte>): bv64 {
    Fold(OffsetBasis, s)
  }

  /** Reference definition: the hash of s is one more step on the hash of its prefix. */
  function Fnv1(s: seq<Byte>): bv64 {
    if s == [] then OffsetBasis else Step(Fnv1(s[..|s| - 1]), s[|s| - 1])
  }

  /** Writing a then b leaves the same state as writing a + b at once. */
  lemma {:induction false} FoldAppend(h: bv64, a: seq<Byte>, b: seq<Byte>)
    ensures Fold(h, a + b) == Fold(Fold(h, a), b)
    decreases |a|
  {
    if a == [] {
      assert a + b == b;
    } else {
      assert (a + b)[0] == a[0];
      assert (a + b)[1..] == a[1..] + b;
      FoldAppend(Step(h, a[0]), a[1..], b);
    }
  }

  lemma {:induction false} Sum64IsFnv1(s: seq<Byte>)
    ensures Sum64(s) == Fnv1(s)
    decreases |s|
  {
    if s != [] {
      var init := s[..|s| - 1];
      assert s == init + [s[|s| - 1]];
      FoldAppend(OffsetBasis, init, [s[|s| - 1]]);
      Sum64IsFnv1(init);
    }
  }

  datatype WriteError = WriteError

  /**
   * HashFromString: the FNV-1 sum, unless the Write reports an error. hash/fnv's Write
   * never fails; writeFails stands for that branch of the code.
   */
  function HashFromString(s: seq<Byte>, writeFails: bool): (r: Result<bv64, WriteError>)
    ensures r.Success? <==> !writeFails
    ensures r.Success? ==> r.value == Fnv1(s)
  {
    Sum64IsFnv1(s);
    if writeFails then Failure(WriteError) else Success(Sum64(s))
  }

  /**
   * Hash: the FNV-1 sum, or the nanosecond field of the current time (a parameter here)
   * when HashFromString fails.
   */
  function Hash(bytes: seq<Byte>, writeFails: bool, nowNanosecond: nat): (r: bv64)
    requires nowNanosecond < 1_000_000_000
    ensures !writeFails ==> r == Fnv1(bytes)
    ensures writeFails ==> r == nowNanosecond as bv64
  {
    match HashFromString(bytes, writeFails)
    case Success(h) => h
    case Failure(_) => nowNanosecond as bv64
  }

  /** Hashing a + b equals hashing a and then writing b into that state: the hash can be computed incrementally. */
  lemma HashOfConcat(a: seq<Byte>, b: seq<Byte>)
    ensures Sum64(a + b) == Fold(Sum64(a), b)
  {
    FoldAppend(OffsetBasis, a, b);
  }
}
