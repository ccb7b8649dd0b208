/** 64-bit fingerprints as the validate step uses them: bit positions,
    the most-significant-first bit list of a word, population count and the
    Hamming distance between two fingerprints. */
module Fingerprint {

  /** A bit position of a 64-bit word, 0 being the least significant. */
  type BitPos = k: bv8 | k < 64

  /** Bit k of h. */
  predicate Bit(h: bv64, k: BitPos) {
    (h >> k) & 1 == 1
  }

  /** The cell that owns bit position p, counted from position 0 (cell 63)
      upward without converting bits to an integer. */
  ghost function Cell(p: BitPos): int
  {
    if p == 0 then 63 else Cell(p - 1) - 1
  }

  lemma {:induction false} CellValue(p: BitPos)
    ensures Cell(p) == 63 - p as int
  {
    if p != 0 {
      CellValue(p - 1);
      assert (p - 1) as int == p as int - 1;
    }
  }

  /** The position `63 - i` that cell i of the 8x8 grid owns, counted down
      from 63 so that the solver never converts an integer to bits. */
  function Pos(i: int): (p: BitPos)
    requires 0 <= i < 64
    ensures Cell(p) == i
  {
    if i == 0 then CellValue(63); 63 else Pos(i - 1) - 1
  }

  /** Pos is the position 63 - i, so distinct cells own distinct bits. */
  lemma PosValue(i: int)
    requires 0 <= i < 64
    ensures Pos(i) as int == 63 - i
  {
    CellValue(Pos(i));
  }

  lemma PosInjective(i: int, j: int)
    requires 0 <= i < 64 && 0 <= j < 64
    ensures Pos(i) == Pos(j) <==> i == j
  {
  }

  /** The word with only bit k set. */
  function Single(k: BitPos): bv64
  {
    1 << k
  }

  /** Setting bit p of w changes bit p only. */
  lemma OrSingleBit(w: bv64, p: BitPos, q: BitPos)
    ensures Bit(w | Single(p), q) <==> Bit(w, q) || p == q
  {
  }

  lemma XorBit(a: bv64, b: bv64, k: BitPos)
    ensures Bit(a ^ b, k) <==> Bit(a, k) != Bit(b, k)
  {
  }

  lemma ZeroBit(k: BitPos)
    ensures !Bit(0, k)
  {
  }

  lemma AllOnesBit(k: BitPos)
    ensures Bit(0xFFFF_FFFF_FFFF_FFFF, k)
  {
  }

  /** The bits of h, most significant first: entry i is bit 63 - i. */
  function Unpack(h: bv64): (bits: seq<bool>)
    ensures |bits| == 64
  {
    seq(64, i requires 0 <= i < 64 => Bit(h, Pos(i)))
  }

  /** The number of true entries of a bit list. */
  function Count(bits: seq<bool>): (n: nat)
    ensures n <= |bits|
  {
    if bits == [] then 0 else (if bits[0] then 1 else 0) + Count(bits[1..])
  }

  /** The number of positions at which two bit lists of one length differ. */
  function Distance(a: seq<bool>, b: seq<bool>): (n: nat)
    requires |a| == |b|
    ensures n <= |a|
  {
    if a == [] then 0 else (if a[0] != b[0] then 1 else 0) + Distance(a[1..], b[1..])
  }

  /** `bits.OnesCount64`: the number of set bits of x. */
  function OnesCount64(x: bv64): (n: nat)
    ensures n <= 64
  {
    Count(Unpack(x))
  }

  lemma {:induction false} CountPointwise(c: seq<bool>, a: seq<bool>, b: seq<bool>)
    requires |c| == |a| == |b|
    requires forall i :: 0 <= i < |c| ==> c[i] == (a[i] != b[i])
    ensures Count(c) == Distance(a, b)
  {
    if c != [] {
      CountPointwise(c[1..], a[1..], b[1..]);
    }
  }

  /** The popcount of an XOR is the Hamming distance of the two bit lists. */
  lemma XorCountIsDistance(x: bv64, y: bv64)
    ensures OnesCount64(x ^ y) == Distance(Unpack(x), Unpack(y))
  {
    forall i | 0 <= i < 64
      ensures Unpack(x ^ y)[i] == (Unpack(x)[i] != Unpack(y)[i])
    {
      XorBit(x, y, Pos(i));
    }
    CountPointwise(Unpack(x ^ y), Unpack(x), Unpack(y));
  }

  lemma {:induction false} DistanceSymmetric(a: seq<bool>, b: seq<bool>)
    requires |a| == |b|
    ensures Distance(a, b) == Distance(b, a)
  {
    if a != [] {
      DistanceSymmetric(a[1..], b[1..]);
    }
  }

  lemma {:induction false} DistanceZeroIffEqual(a: seq<bool>, b: seq<bool>)
    requires |a| == |b|
    ensures Distance(a, b) == 0 <==> a == b
  {
    if a != [] {
      DistanceZeroIffEqual(a[1..], b[1..]);
      if a[0] == b[0] && a[1..] == b[1..] {
        assert a == [a[0]] + a[1..] && b == [b[0]] + b[1..];
      }
    }
  }

  /** A list whose entries all differ from the other list's is at distance |a|. */
  lemma {:induction false} DistanceComplement(a: seq<bool>, b: seq<bool>)
    requires |a| == |b|
    requires forall i :: 0 <= i < |a| ==> a[i] != b[i]
    ensures Distance(a, b) == |a|
  {
    if a != [] {
      DistanceComplement(a[1..], b[1..]);
    }
  }
}
