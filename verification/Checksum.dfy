/**
 The Internet checksum of `common.h`, against the ones' complement sum of
 section 1 of RFC 1071.
 */
module Checksum {
  import opened Bytes

  const ONES: int := 0xffff

  /** Ones' complement addition of two words: the carry comes back in at the right. */
  function OnesAdd(a: word, b: word): word {
    if a + b > ONES then a + b - ONES else a + b
  }

  /** Section 1 of RFC 1071: the ones' complement sum of the words of `b`. */
  function OnesSum(e: Endian, b: seq<byte>): word
    requires |b| % 2 == 0
  {
    if b == [] then 0 else OnesAdd(Load16(e, b[0], b[1]), OnesSum(e, b[2..]))
  }

  /** The checksum a correct implementation produces: the complement of the sum. */
  function InternetChecksum(e: Endian, b: seq<byte>): word
    requires |b| % 2 == 0
  {
    ONES - OnesSum(e, b)
  }

  /** The exact integer sum that the loop of `cksum` accumulates. */
  function WordSum(e: Endian, b: seq<byte>): nat
    requires |b| % 2 == 0
  {
    if b == [] then 0 else Load16(e, b[0], b[1]) + WordSum(e, b[2..])
  }

  /** The residue of `s` in 1..0xffff, except that 0 stays 0. */
  function Residue(s: nat): word {
    if s == 0 then 0 else (s - 1) % ONES + 1
  }

  /** The loop of `cksum`: at most 65537 words never overflow the 32-bit accumulator. */
  method SumWords(e: Endian, buf: array<byte>, off: nat, nbytes: nat) returns (sum: nat)
    requires off + nbytes <= buf.Length
    requires nbytes % 2 == 0 && nbytes <= 2 * 65537
    ensures sum == WordSum(e, buf[off..off + nbytes]) < 0x1_0000_0000
  {
    hide WordSum;
    sum := 0;
    var p, n := off, nbytes;
    ghost var whole := buf[off..off + nbytes];
    WordSumBound(e, whole);
    assert whole[0..] == whole;
    while n > 1
      invariant p + n == off + nbytes && n % 2 == 0 && off <= p && 0 <= n
      invariant sum + WordSum(e, whole[p - off..]) == WordSum(e, whole)
    {
      WordSumTail(e, whole, p - off);
      sum := (sum + Load16(e, buf[p], buf[p + 1])) % 0x1_0000_0000;
      p, n := p + 2, n - 2;
    }
    WordSumEmpty(e, whole[p - off..]);
  }

  lemma WordSumTail(e: Endian, b: seq<byte>, i: nat)
    requires |b| % 2 == 0 && i % 2 == 0 && i + 2 <= |b|
    ensures WordSum(e, b[i..]) == Load16(e, b[i], b[i + 1]) + WordSum(e, b[i + 2..])
  {
    assert b[i..][2..] == b[i + 2..];
  }

  lemma WordSumEmpty(e: Endian, b: seq<byte>)
    requires |b| == 0
    ensures WordSum(e, b) == 0
  {
  }

  /** `cksum` on even lengths. */
  method Cksum(e: Endian, buf: array<byte>, off: nat, nbytes: nat) returns (r: word)
    requires off + nbytes <= buf.Length
    requires nbytes % 2 == 0 && nbytes <= 2 * 65537
    ensures r == InternetChecksum(e, buf[off..off + nbytes])
  {
    var sum := SumWords(e, buf, off, nbytes);
    FoldIsResidue(sum);
    OnesSumIsResidue(e, buf[off..off + nbytes]);
    r := Fold(sum);
  }

  /** The two folds and the final complement. */
  function Fold(sum: nat): (r: word)
    requires sum < 0x1_0000_0000
  {
    var s1 := sum / 0x1_0000 + sum % 0x1_0000;
    var s2 := (s1 + s1 / 0x1_0000) % 0x1_0000_0000;
    ONES - s2 % 0x1_0000
  }

  /** At most 65537 words never overflow the 32-bit accumulator. */
  lemma {:induction false} WordSumBound(e: Endian, b: seq<byte>)
    requires |b| % 2 == 0
    ensures WordSum(e, b) <= |b| / 2 * ONES
    ensures |b| <= 2 * 65537 ==> WordSum(e, b) < 0x1_0000_0000
  {
    if b != [] {
      WordSumBound(e, b[2..]);
    }
  }

  /** Adding with end-around carry at every step, or once at the end, is the same. */
  lemma {:induction false} OnesSumIsResidue(e: Endian, b: seq<byte>)
    requires |b| % 2 == 0
    ensures OnesSum(e, b) == Residue(WordSum(e, b))
  {
    if b != [] {
      OnesSumIsResidue(e, b[2..]);
      ResidueStep(Load16(e, b[0], b[1]), WordSum(e, b[2..]));
    }
  }

  lemma ResidueStep(w: word, s: nat)
    ensures OnesAdd(w, Residue(s)) == Residue(w + s)
  {
    if s > 0 {
      var q := (s - 1) / ONES;
      assert s == q * ONES + Residue(s);
      ResidueUnique(w + s, q + (if w + Residue(s) > ONES then 1 else 0), OnesAdd(w, Residue(s)));
    } else if w > 0 {
      ResidueUnique(w, 0, w);
    }
  }

  lemma ResidueUnique(s: nat, q: int, r: int)
    requires s == q * ONES + r && 1 <= r <= ONES && s > 0
    ensures Residue(s) == r
  {
    assert s - 1 == q * ONES + (r - 1);
  }

  /** The two folds of `cksum` compute the residue of any 32-bit accumulator. */
  lemma FoldIsResidue(sum: nat)
    requires sum < 0x1_0000_0000
    ensures Fold(sum) == ONES - Residue(sum)
  {
    var hi, lo := sum / 0x1_0000, sum % 0x1_0000;
    var s1 := hi + lo;
    if sum > 0 {
      if s1 < 0x1_0000 {
        ResidueUnique(sum, hi, s1);
      } else {
        ResidueUnique(sum, hi + 1, s1 - ONES);
      }
    }
  }

  // ----- byte order -----

  function HighBytes(b: seq<byte>): nat
    requires |b| % 2 == 0
  {
    if b == [] then 0 else b[0] + HighBytes(b[2..])
  }

  lemma {:induction false} SwappedSum(b: seq<byte>)
    requires |b| % 2 == 0
    ensures WordSum(Little, b) + ONES * HighBytes(b) == 256 * WordSum(Big, b)
    ensures HighBytes(b) <= WordSum(Little, b)
  {
    if b != [] {
      SwappedSum(b[2..]);
    }
  }

  /** Section 2(B) of RFC 1071: swapping the bytes of every word swaps those of the sum. */
  lemma OnesSumSwaps(b: seq<byte>)
    requires |b| % 2 == 0
    ensures OnesSum(Little, b) == Swap(OnesSum(Big, b))
  {
    OnesSumIsResidue(Little, b);
    OnesSumIsResidue(Big, b);
    SwappedSum(b);
    var sb, sl := WordSum(Big, b), WordSum(Little, b);
    if sb > 0 {
      var n, k := Residue(sb), (sb - 1) / ONES;
      assert sb == k * ONES + n;
      assert 256 * n == Swap(n) + ONES * (n / 256);
      ResidueUnique(sl, n / 256 + 256 * k - HighBytes(b), Swap(n));
    }
  }

  /**
   A little-endian and a big-endian host put the same two octets on the wire:
   `cksum` needs no conversion before its result is stored.
   */
  lemma ChecksumByteOrderIndependent(b: seq<byte>, e: Endian)
    requires |b| % 2 == 0
    ensures Store16(e, InternetChecksum(e, b)) == Net16(InternetChecksum(Big, b))
  {
    OnesSumSwaps(b);
    StoreComplementOfSwap(OnesSum(Big, b));
  }

  lemma StoreComplementOfSwap(n: word)
    ensures Store16(Little, ONES - Swap(n)) == Store16(Big, ONES - n)
  {
    var c := ONES - n;
    assert c / 256 == 255 - n / 256 && c % 256 == 255 - n % 256;
    assert ONES - Swap(n) == 256 * (255 - n % 256) + (255 - n / 256);
  }

  // ----- structure of the sum -----

  lemma {:induction false} WordSumConcat(e: Endian, a: seq<byte>, b: seq<byte>)
    requires |a| % 2 == 0 && |b| % 2 == 0
    ensures WordSum(e, a + b) == WordSum(e, a) + WordSum(e, b)
  {
    if a == [] {
      assert a + b == b;
    } else {
      assert (a + b)[2..] == a[2..] + b;
      WordSumConcat(e, a[2..], b);
    }
  }

  /** Writes the two octets of a word at an even offset. */
  function PutWord(b: seq<byte>, i: nat, w: seq<byte>): (r: seq<byte>)
    requires i + 2 <= |b| && |w| == 2
    ensures |r| == |b|
  {
    b[i := w[0]][i + 1 := w[1]]
  }

  lemma PutTwice(b: seq<byte>, i: nat, v: seq<byte>, w: seq<byte>)
    requires i + 2 <= |b| && |v| == |w| == 2
    ensures PutWord(PutWord(b, i, v), i, w) == PutWord(b, i, w)
  {
  }

  lemma PutInSuffix(a: seq<byte>, b: seq<byte>, i: nat, w: seq<byte>)
    requires i + 2 <= |b| && |w| == 2
    ensures PutWord(a + b, |a| + i, w) == a + PutWord(b, i, w)
  {
  }

  lemma SameWordSum(e: Endian, p: seq<byte>, q: seq<byte>)
    requires |p| % 2 == 0 && |q| % 2 == 0 && WordSum(e, p) == WordSum(e, q)
    ensures OnesSum(e, p) == OnesSum(e, q)
  {
    OnesSumIsResidue(e, p);
    OnesSumIsResidue(e, q);
  }

  lemma WordSumOfThree(e: Endian, a: seq<byte>, x: seq<byte>, b: seq<byte>)
    requires |a| % 2 == 0 && |x| % 2 == 0 && |b| % 2 == 0
    ensures WordSum(e, a + x + b) == WordSum(e, a) + WordSum(e, x) + WordSum(e, b)
  {
    WordSumConcat(e, a + x, b);
    WordSumConcat(e, a, x);
  }

  /** Two stretches of equal sum may replace each other. */
  lemma SameMiddle(e: Endian, a: seq<byte>, x: seq<byte>, y: seq<byte>, b: seq<byte>)
    requires |a| % 2 == 0 && |x| % 2 == 0 && |y| % 2 == 0 && |b| % 2 == 0
    requires WordSum(e, x) == WordSum(e, y)
    ensures WordSum(e, a + x + b) == WordSum(e, a + y + b)
  {
    WordSumOfThree(e, a, x, b);
    WordSumOfThree(e, a, y, b);
  }

  lemma SamePrefix(e: Endian, x: seq<byte>, y: seq<byte>, b: seq<byte>)
    requires |x| % 2 == 0 && |y| % 2 == 0 && |b| % 2 == 0
    requires WordSum(e, x) == WordSum(e, y)
    ensures WordSum(e, x + b) == WordSum(e, y + b)
  {
    WordSumConcat(e, x, b);
    WordSumConcat(e, y, b);
  }

  lemma WordSumAt(e: Endian, b: seq<byte>, i: nat)
    requires |b| % 2 == 0 && i % 2 == 0 && i + 2 <= |b|
    ensures WordSum(e, b) == WordSum(e, b[..i]) + Load16(e, b[i], b[i + 1]) + WordSum(e, b[i + 2..])
  {
    var w := [b[i], b[i + 1]];
    assert b == b[..i] + (w + b[i + 2..]);
    WordSumConcat(e, b[..i], w + b[i + 2..]);
    WordSumConcat(e, w, b[i + 2..]);
    assert w[2..] == [];
  }

  lemma WordSumPut(e: Endian, b: seq<byte>, i: nat, w: seq<byte>)
    requires |b| % 2 == 0 && i % 2 == 0 && i + 2 <= |b| && |w| == 2
    ensures WordSum(e, PutWord(b, i, w)) + Load16(e, b[i], b[i + 1])
            == WordSum(e, b) + Load16(e, w[0], w[1])
  {
    var c := PutWord(b, i, w);
    WordSumAt(e, b, i);
    WordSumAt(e, c, i);
    assert c[..i] == b[..i] && c[i + 2..] == b[i + 2..];
  }

  lemma PositiveSum(e: Endian, b: seq<byte>)
    requires |b| % 2 == 0 && |b| >= 2 && b[0] > 0
    ensures WordSum(e, b) > 0
  {
  }

  lemma PositiveResidue(s: nat)
    ensures s > 0 ==> Residue(s) > 0
  {
  }

  // ----- the receiver's test -----

  /** Section 1 of RFC 1071: a packet is good when the sum over everything is all ones. */
  predicate AllOnes(e: Endian, b: seq<byte>)
    requires |b| % 2 == 0
  {
    OnesSum(e, b) == ONES
  }

  /**
   The daemon's test instead zeroes the checksum field at offset `i`,
   recomputes, and compares with the stored word.
   */
  predicate Recomputed(e: Endian, b: seq<byte>, i: nat)
    requires |b| % 2 == 0 && i % 2 == 0 && i + 2 <= |b|
  {
    InternetChecksum(e, PutWord(b, i, [0, 0])) == Load16(e, b[i], b[i + 1])
  }

  /**
   Recomputing is the all-ones test, except that a stored 0xffff is refused
   where 0 is computed.
   */
  lemma RecomputedVersusAllOnes(e: Endian, b: seq<byte>, i: nat)
    requires |b| % 2 == 0 && i % 2 == 0 && i + 2 <= |b|
    ensures Recomputed(e, b, i)
            <==> AllOnes(e, b) && !(Load16(e, b[i], b[i + 1]) == ONES
                                    && InternetChecksum(e, PutWord(b, i, [0, 0])) == 0)
  {
    var z, t := PutWord(b, i, [0, 0]), Load16(e, b[i], b[i + 1]);
    WordSumPut(e, b, i, [0, 0]);
    OnesSumIsResidue(e, z);
    OnesSumIsResidue(e, b);
    SumToAllOnes(WordSum(e, z), t);
  }

  lemma SumToAllOnes(s: nat, t: word)
    ensures Residue(s + t) == ONES <==> (t == ONES - Residue(s) || (t == ONES && Residue(s) == ONES))
  {
    if s > 0 {
      var q, n := (s - 1) / ONES, Residue(s);
      assert s == q * ONES + n;
      if n + t > ONES {
        ResidueUnique(s + t, q + 1, n + t - ONES);
      } else {
        ResidueUnique(s + t, q, n + t);
      }
    } else if t > 0 {
      ResidueUnique(t, 0, t);
    }
  }

  /**
   Which changes of one word go unnoticed: exactly the exchange of 0x0000 and
   0xffff while some other covered word is not zero.
   */
  lemma SingleWordChange(e: Endian, b: seq<byte>, i: nat, w: seq<byte>)
    requires |b| % 2 == 0 && i % 2 == 0 && i + 2 <= |b| && |w| == 2
    ensures var old16, new16 := Load16(e, b[i], b[i + 1]), Load16(e, w[0], w[1]);
            InternetChecksum(e, PutWord(b, i, w)) == InternetChecksum(e, b) && old16 != new16
            <==> ((old16 == 0 && new16 == ONES) || (old16 == ONES && new16 == 0))
                 && WordSum(e, PutWord(b, i, [0, 0])) > 0
  {
    hide OnesSum, WordSum;
    var rest := WordSum(e, PutWord(b, i, [0, 0]));
    WordSumPut(e, b, i, w);
    WordSumPut(e, b, i, [0, 0]);
    OnesSumIsResidue(e, b);
    OnesSumIsResidue(e, PutWord(b, i, w));
    SameResidue(rest, Load16(e, b[i], b[i + 1]), Load16(e, w[0], w[1]));
  }

  lemma SameResidue(s: nat, v: word, w: word)
    ensures Residue(s + v) == Residue(s + w) && v != w
            <==> s > 0 && ((v == 0 && w == ONES) || (v == ONES && w == 0))
  {
    ResidueStep(v, s);
    ResidueStep(w, s);
  }
}
