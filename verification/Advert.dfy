/**
 The advertisement: configuration, packet layout, pseudo-headers, checksum,
 and the prepared packet that is patched in place (`vrrp_adv.c`, `vrrp_adv.h`,
 and the checksum and size functions of `vrrp_ip4.c` and `vrrp_ip6.c`).
 */
module Advert {
  import opened Bytes
  import opened Checksum
  import opened Address

  const IPPROTO_VRRP: byte := 112
  const TTL: byte := 255
  const OWNER: byte := 255
  const AUTH_SIZE: nat := 8

  datatype Auth = NoAuth | Simple(password: seq<byte>)

  /** What the command line fixes for the life of an instance, and the host's byte order. */
  datatype Config = Config(
    host: Endian,
    version: byte,
    vrid: byte,
    advInt: word,
    startDelay: word,
    preempt: bool,
    auth: Auth,
    family: Family,
    vips: seq<seq<byte>>,
    addr: seq<byte>,
    mtu: int)
  {
    /** The ranges that option parsing accepts; IPv6 exists in version 3 only. */
    predicate Valid() {
      && (version == 2 || version == 3)
      && (family.V6? ==> version == 3)
      && vrid >= 1
      && 1 <= advInt <= 4095 && startDelay <= 4095
      && (auth.Simple? ==> |auth.password| <= AUTH_SIZE)
      && 1 <= |vips| <= 255
      && (forall i :: 0 <= i < |vips| ==> |vips[i]| == AddrLen(family))
      && |addr| == AddrLen(family)
    }

    /** `adv_getsize`: IPv4 always reserves the eight octets of authentication data. */
    function Size(): (n: nat)
      ensures n % 2 == 0 && n >= 8 + |vips| * AddrLen(family)
    {
      if family.V4? then 8 + |vips| * 4 + AUTH_SIZE else 8 + |vips| * 16
    }

    function AuthType(): byte {
      if auth.NoAuth? then 0 else 1
    }
  }

  /** 224.0.0.18 and ff02::12. */
  function Group(f: Family): (g: seq<byte>)
    ensures |g| == AddrLen(f)
  {
    if f.V4? then [224, 0, 0, 18] else [0xff, 0x02] + Zeros(13) + [0x12]
  }

  // ----- layout -----

  function Header(c: Config, prio: byte): (h: seq<byte>)
    requires c.Valid()
    ensures |h| == 8
  {
    [16 * c.version + 1, c.vrid, prio, |c.vips|]
    + (if c.version == 2 then [c.AuthType(), c.advInt % 256] else Net16(c.advInt))
    + [0, 0]
  }

  /** The virtual addresses, last registered first. */
  function Body(n: nat, vips: seq<seq<byte>>): (b: seq<byte>)
    requires forall i :: 0 <= i < |vips| ==> |vips[i]| == n
    ensures |b| == |vips| * n
  {
    if vips == [] then [] else vips[|vips| - 1] + Body(n, vips[..|vips| - 1])
  }

  /** Eight octets after the addresses in IPv4; `junk` is what the allocator left there. */
  function Trailer(c: Config, junk: seq<byte>): (t: seq<byte>)
    requires c.Valid() && |junk| == c.Size() - 8 - |c.vips| * AddrLen(c.family)
    ensures |t| == |junk|
  {
    if c.version == 2 && c.auth.Simple? then c.auth.password + junk[|c.auth.password|..] else junk
  }

  function Raw(c: Config, prio: byte, junk: seq<byte>): (p: seq<byte>)
    requires c.Valid() && |junk| == c.Size() - 8 - |c.vips| * AddrLen(c.family)
    ensures |p| == c.Size()
  {
    Header(c, prio) + Body(AddrLen(c.family), c.vips) + Trailer(c, junk)
  }

  function JunkOf(c: Config, pkt: seq<byte>): (j: seq<byte>)
    requires |pkt| == c.Size()
    ensures |j| == c.Size() - 8 - |c.vips| * AddrLen(c.family)
  {
    pkt[8 + |c.vips| * AddrLen(c.family)..]
  }

  // ----- checksum -----

  /** `htons(len)` assigned to a 32-bit field of the IPv6 pseudo-header. */
  function Len32(e: Endian, len: word): (s: seq<byte>)
    ensures |s| == 4
  {
    if e.Little? then Net16(len) + [0, 0] else [0, 0] + Net16(len)
  }

  /** `htons`: the 16-bit value whose native store is in network order. */
  function Htons(e: Endian, w: word): word {
    Load16(e, w / 256, w % 256)
  }

  /** The four octets that a host of byte order `e` writes for a 32-bit value. */
  function Store32(e: Endian, v: int): (s: seq<byte>)
    requires 0 <= v < 0x1_0000_0000
    ensures |s| == 4
  {
    var a, b, c, d: byte := v / 0x100_0000, v / 0x1_0000 % 256, v / 256 % 256, v % 256;
    if e.Big? then [a, b, c, d] else [d, c, b, a]
  }

  /** The length field holds what a native 32-bit store of the swapped 16-bit value leaves there. */
  lemma LengthFieldAsStored(e: Endian, len: word)
    ensures Len32(e, len) == Store32(e, Htons(e, len))
  {
    var hi: byte, lo: byte := len / 256, len % 256;
    assert Net16(len) == [hi, lo];
    StoreOfWord(e, Htons(e, len));
    assert Store16(e, Htons(e, len)) == [hi, lo];
  }

  lemma StoreOfWord(e: Endian, v: word)
    ensures Store32(e, v) == if e.Big? then [0, 0] + Store16(e, v) else Store16(e, v) + [0, 0]
  {
    assert v / 0x100_0000 == 0 && v / 0x1_0000 % 256 == 0 && v / 256 % 256 == v / 256;
  }

  /** The pseudo-header built on the stack; version 2 has none. */
  function Pseudo(c: Config, version: int, src: seq<byte>, dst: seq<byte>): (s: seq<byte>)
    requires c.Valid() && |src| == |dst| == AddrLen(c.family)
    ensures |s| % 2 == 0 && |s| <= 40
  {
    if c.family.V6? then src + dst + Len32(c.host, c.Size()) + [0, 0, 0, IPPROTO_VRRP]
    else if version == 2 then []
    else src + dst + [0, IPPROTO_VRRP] + Net16(c.Size())
  }

  function Zeroed(pkt: seq<byte>): (z: seq<byte>)
    requires |pkt| >= 8
    ensures |z| == |pkt|
  {
    PutWord(pkt, 6, [0, 0])
  }

  /** `vrrp_ip4_chksum` and `vrrp_ip6_chksum`. */
  function Chksum(c: Config, pkt: seq<byte>, src: seq<byte>, dst: seq<byte>): word
    requires c.Valid() && |pkt| == c.Size() && |src| == |dst| == AddrLen(c.family)
  {
    if c.family.V4? && pkt[0] / 16 != 2 && pkt[0] / 16 != 3 then 0
    else InternetChecksum(c.host, Pseudo(c, pkt[0] / 16, src, dst) + Zeroed(pkt))
  }

  /** Stores the checksum that the instance computes with its own addresses. */
  function Seal(c: Config, pkt: seq<byte>): (p: seq<byte>)
    requires c.Valid() && |pkt| == c.Size()
    ensures |p| == c.Size()
  {
    PutWord(pkt, 6, Store16(c.host, Chksum(c, pkt, c.addr, Group(c.family))))
  }

  /** The packet that `vrrp_adv_build` leaves in the buffer. */
  function Built(c: Config, prio: byte, junk: seq<byte>): (p: seq<byte>)
    requires c.Valid() && |junk| == c.Size() - 8 - |c.vips| * AddrLen(c.family)
    ensures |p| == c.Size()
  {
    Seal(c, Raw(c, prio, junk))
  }

  /** The buffer is the advertisement of priority `prio`. */
  predicate Prepared(c: Config, prio: byte, pkt: seq<byte>)
    requires c.Valid()
  {
    |pkt| == c.Size() && pkt == Built(c, prio, JunkOf(c, pkt))
  }

  // ----- the standards' checksum -----

  /**
   The pseudo-headers of section 5.2.8 of RFC 5798, in IPv6 as laid out in
   section 8.1 of RFC 2460: nothing here depends on the host.
   */
  function StandardPseudo(c: Config, src: seq<byte>, dst: seq<byte>): (s: seq<byte>)
    requires c.Valid() && |src| == |dst| == AddrLen(c.family)
    ensures |s| % 2 == 0
  {
    if c.version == 2 then []
    else if c.family.V4? then src + dst + [0, IPPROTO_VRRP] + Net16(c.Size())
    else src + dst + ([0, 0] + Net16(c.Size())) + [0, 0, 0, IPPROTO_VRRP]
  }

  /** Moving the length word inside the IPv6 pseudo-header does not change its sum. */
  lemma LengthWordMoves(c: Config, src: seq<byte>, dst: seq<byte>)
    requires c.Valid() && c.family.V6? && |src| == |dst| == 16
    ensures WordSum(c.host, Pseudo(c, 3, src, dst)) == WordSum(c.host, StandardPseudo(c, src, dst))
  {
    LengthWordSum(c.host, c.Size());
    SameMiddle(c.host, src + dst, Len32(c.host, c.Size()), [0, 0] + Net16(c.Size()), [0, 0, 0, IPPROTO_VRRP]);
  }

  lemma LengthWordSum(e: Endian, len: word)
    ensures WordSum(e, Len32(e, len)) == WordSum(e, [0, 0] + Net16(len))
  {
    var w, z: seq<byte> := Net16(len), [0, 0];
    WordSumConcat(e, w, z);
    WordSumConcat(e, z, w);
  }

  /** The field octets are those of the standard's big-endian checksum, whatever the host. */
  lemma ChecksumIsStandard(c: Config, pkt: seq<byte>, src: seq<byte>, dst: seq<byte>)
    requires c.Valid() && |pkt| == c.Size() && |src| == |dst| == AddrLen(c.family)
    requires pkt[0] / 16 == c.version
    ensures Store16(c.host, Chksum(c, pkt, src, dst))
            == Net16(InternetChecksum(Big, StandardPseudo(c, src, dst) + Zeroed(pkt)))
  {
    hide InternetChecksum, Chksum, StandardPseudo, Zeroed, Store16, Net16;
    SumsStandardLayout(c, pkt, src, dst);
    ChecksumByteOrderIndependent(StandardPseudo(c, src, dst) + Zeroed(pkt), c.host);
  }

  /** The host's own sum is the same over the standard's layout. */
  lemma SumsStandardLayout(c: Config, pkt: seq<byte>, src: seq<byte>, dst: seq<byte>)
    requires c.Valid() && |pkt| == c.Size() && |src| == |dst| == AddrLen(c.family)
    requires pkt[0] / 16 == c.version
    ensures Chksum(c, pkt, src, dst) == InternetChecksum(c.host, StandardPseudo(c, src, dst) + Zeroed(pkt))
  {
    hide OnesSum, Zeroed, Net16, Len32;
    if c.family.V6? {
      hide Pseudo, StandardPseudo;
      LengthWordMoves(c, src, dst);
      SamePrefix(c.host, Pseudo(c, 3, src, dst), StandardPseudo(c, src, dst), Zeroed(pkt));
      SameWordSum(c.host, Pseudo(c, 3, src, dst) + Zeroed(pkt), StandardPseudo(c, src, dst) + Zeroed(pkt));
    } else {
      assert Pseudo(c, c.version, src, dst) == StandardPseudo(c, src, dst);
    }
  }

  /** Section 1 of RFC 1071 at the receiver: everything covered sums to all ones. */
  predicate Verifies(c: Config, pkt: seq<byte>, src: seq<byte>, dst: seq<byte>)
    requires c.Valid() && |pkt| == c.Size() && |src| == |dst| == AddrLen(c.family)
  {
    AllOnes(Big, StandardPseudo(c, src, dst) + pkt)
  }

  /** The version octet is covered, so the sum is never zero and the checksum never 0xffff. */
  lemma ChecksumNotOnes(c: Config, pkt: seq<byte>, src: seq<byte>, dst: seq<byte>)
    requires c.Valid() && |pkt| == c.Size() && |src| == |dst| == AddrLen(c.family)
    requires pkt[0] / 16 == c.version
    ensures Chksum(c, pkt, src, dst) != ONES
  {
    hide OnesSum, WordSum, Pseudo, Residue;
    var psh := Pseudo(c, pkt[0] / 16, src, dst);
    PositiveSum(c.host, Zeroed(pkt));
    PositiveResidue(WordSum(c.host, psh + Zeroed(pkt)));
    WordSumConcat(c.host, psh, Zeroed(pkt));
    OnesSumIsResidue(c.host, psh + Zeroed(pkt));
  }

  /**
   The receiver's recomputation, on any host, is the standard's test, except
   that it refuses every packet with a stored checksum of 0xffff.
   */
  lemma RecomputationIsStandard(c: Config, pkt: seq<byte>, src: seq<byte>, dst: seq<byte>)
    requires c.Valid() && |pkt| == c.Size() && |src| == |dst| == AddrLen(c.family)
    requires pkt[0] / 16 == c.version
    ensures Chksum(c, pkt, src, dst) == Load16(c.host, pkt[6], pkt[7])
            <==> Verifies(c, pkt, src, dst) && !(pkt[6] == pkt[7] == 0xff)
  {
    hide OnesSum, Chksum, StandardPseudo;
    var psh := StandardPseudo(c, src, dst);
    ChecksumIsStandard(c, pkt, src, dst);
    ChecksumNotOnes(c, pkt, src, dst);
    PutInSuffix(psh, pkt, 6, [0, 0]);
    RecomputedVersusAllOnes(Big, psh + pkt, |psh| + 6);
    SameField(c.host, Chksum(c, pkt, src, dst), InternetChecksum(Big, psh + Zeroed(pkt)), pkt[6], pkt[7]);
  }

  lemma SameField(e: Endian, a: word, b: word, x: byte, y: byte)
    requires Store16(e, a) == Net16(b)
    ensures a == Load16(e, x, y) <==> b == Load16(Big, x, y)
    ensures (a == ONES <==> b == ONES) && (Load16(e, x, y) == ONES <==> x == y == 0xff)
  {
  }

  /** A sealed packet passes the standard's test. */
  lemma SealVerifies(c: Config, pkt: seq<byte>)
    requires c.Valid() && |pkt| == c.Size() && pkt[0] / 16 == c.version
    ensures Verifies(c, Seal(c, pkt), c.addr, Group(c.family))
  {
    SealRecomputes(c, pkt);
    RecomputationIsStandard(c, Seal(c, pkt), c.addr, Group(c.family));
  }

  /** Recomputing the checksum of a sealed packet gives the stored one. */
  lemma SealRecomputes(c: Config, pkt: seq<byte>)
    requires c.Valid() && |pkt| == c.Size()
    ensures var p := Seal(c, pkt);
            p[0] == pkt[0] && Chksum(c, p, c.addr, Group(c.family)) == Load16(c.host, p[6], p[7])
  {
    var p := Seal(c, pkt);
    PutTwice(pkt, 6, p[6..8], [0, 0]);
  }

  // ----- patching the prepared packet -----

  lemma SealOfSameZeroed(c: Config, p: seq<byte>, q: seq<byte>)
    requires c.Valid() && |p| == |q| == c.Size() && Zeroed(p) == Zeroed(q)
    ensures Seal(c, p) == Seal(c, q)
  {
    assert p[0] == Zeroed(p)[0] && q[0] == Zeroed(q)[0];
    var w := Store16(c.host, Chksum(c, p, c.addr, Group(c.family)));
    PutTwice(p, 6, [0, 0], w);
    PutTwice(q, 6, [0, 0], w);
  }

  lemma RawPriority(c: Config, prio: byte, q: byte, junk: seq<byte>)
    requires c.Valid() && |junk| == c.Size() - 8 - |c.vips| * AddrLen(c.family)
    ensures Raw(c, prio, junk)[2 := q] == Raw(c, q, junk)
  {
    assert Header(c, prio)[2 := q] == Header(c, q);
  }

  lemma PatchUnderSeal(r: seq<byte>, w: seq<byte>, q: byte)
    requires |r| >= 8 && |w| == 2
    ensures Zeroed(PutWord(r, 6, w)[2 := q]) == Zeroed(r[2 := q])
  {
  }

  /** Rewriting the priority and resealing gives the packet that a fresh build would give. */
  lemma Reprioritise(c: Config, prio: byte, q: byte, pkt: seq<byte>)
    requires c.Valid() && Prepared(c, prio, pkt)
    ensures Prepared(c, q, Seal(c, pkt[2 := q]))
    ensures JunkOf(c, Seal(c, pkt[2 := q])) == JunkOf(c, pkt)
  {
    var junk := JunkOf(c, pkt);
    var raw := Raw(c, prio, junk);
    PatchUnderSeal(raw, Store16(c.host, Chksum(c, raw, c.addr, Group(c.family))), q);
    RawPriority(c, prio, q, junk);
    SealOfSameZeroed(c, pkt[2 := q], Raw(c, q, junk));
    assert JunkOf(c, Seal(c, pkt[2 := q])) == junk;
  }

  lemma PreparedFacts(c: Config, prio: byte, pkt: seq<byte>)
    requires c.Valid() && Prepared(c, prio, pkt)
    ensures pkt[..6] == Header(c, prio)[..6] && pkt[0] / 16 == c.version && pkt[2] == prio
    ensures Verifies(c, pkt, c.addr, Group(c.family))
  {
    hide Verifies, Chksum;
    SealVerifies(c, Raw(c, prio, JunkOf(c, pkt)));
  }
}
