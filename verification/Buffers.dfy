/**
 The buffers of `vnet->__adv`: built once at start, then patched in place.
 Each method writes octets where the daemon writes them and is proved against
 the layout functions of `Advert`.
 */
module Buffers {
  import opened Bytes
  import opened Checksum
  import opened Address
  import opened Advert
  import VipList

  /** What goes on the wire after the Ethernet header. */
  datatype Frame = Frame(ip: seq<byte>, adv: seq<byte>)

  method Memcpy(dst: array<byte>, off: nat, src: seq<byte>)
    requires off + |src| <= dst.Length
    modifies dst
    ensures dst[..] == old(dst[..off]) + src + old(dst[off + |src|..])
  {
    for i := 0 to |src|
      invariant forall k :: 0 <= k < dst.Length ==>
                              dst[k] == if off <= k < off + i then src[k - off] else old(dst[k])
    {
      dst[off + i] := src[i];
    }
  }

  /** Sums a pseudo-header and a packet copied behind it into one buffer. */
  method CksumBehind(e: Endian, psh: seq<byte>, pkt: seq<byte>) returns (r: word)
    requires |psh| % 2 == 0 && |pkt| % 2 == 0 && |psh| + |pkt| <= 2 * 65537
    ensures r == InternetChecksum(e, psh + pkt)
  {
    var buf := new byte[|psh| + |pkt|];
    Memcpy(buf, 0, psh);
    Memcpy(buf, |psh|, pkt);
    assert buf[0..|psh| + |pkt|] == psh + pkt;
    r := Cksum(e, buf, 0, |psh| + |pkt|);
  }

  method ZeroField(buf: array<byte>, off: nat, n: nat)
    requires off + n <= buf.Length && n >= 8
    modifies buf
    ensures buf[..] == PutWord(old(buf[..]), off + 6, [0, 0])
    ensures buf[off..off + n] == Zeroed(old(buf[off..off + n]))
  {
    buf[off + 6] := 0;
    buf[off + 7] := 0;
  }

  lemma NoPseudo(c: Config, src: seq<byte>, dst: seq<byte>, z: seq<byte>)
    requires c.Valid() && c.family.V4? && |src| == |dst| == 4
    ensures Pseudo(c, 2, src, dst) + z == z
  {
  }

  /**
   `adv_checksum`: zeroes the checksum field of the packet at `off` and sums,
   behind a pseudo-header in version 3. The field is left zero.
   */
  method AdvChecksum(c: Config, buf: array<byte>, off: nat, src: seq<byte>, dst: seq<byte>) returns (r: word)
    requires c.Valid() && off + c.Size() <= buf.Length
    requires |src| == |dst| == AddrLen(c.family)
    modifies buf
    ensures buf[..] == PutWord(old(buf[..]), off + 6, [0, 0])
    ensures r == Chksum(c, old(buf[off..off + c.Size()]), src, dst)
  {
    hide InternetChecksum, Pseudo;
    var n := c.Size();
    ghost var pkt := buf[off..off + n];
    ZeroField(buf, off, n);
    var version := buf[off] / 16;
    assert version == pkt[0] / 16;
    if c.family.V4? && version == 2 {
      r := Cksum(c.host, buf, off, n);
      NoPseudo(c, src, dst, Zeroed(pkt));
    } else if c.family.V6? || version == 3 {
      var psh := Pseudo(c, version, src, dst);
      r := CksumBehind(c.host, psh, buf[off..off + n]);
    } else {
      r := 0;
    }
  }

  // ----- IP headers -----

  function Ip4Fields(c: Config): (h: seq<byte>)
    requires c.Valid() && c.family.V4?
    ensures |h| == 20
  {
    [0x45, 0] + Net16(20 + c.Size()) + [0xde, 0xad, 0, 0, TTL, IPPROTO_VRRP, 0, 0] + c.addr + Group(V4)
  }

  /** The header that precedes every advertisement of this instance. */
  function IpHeader(c: Config): (h: seq<byte>)
    requires c.Valid()
    ensures |h| == if c.family.V4? then 20 else 40
  {
    if c.family.V4? then
      PutWord(Ip4Fields(c), 10, Store16(c.host, InternetChecksum(c.host, Ip4Fields(c))))
    else
      [0x60, 0, 0, 0] + Net16(c.Size()) + [IPPROTO_VRRP, TTL] + c.addr + Group(V6)
  }

  method Ip4Fill(c: Config, iph: array<byte>)
    requires c.Valid() && c.family.V4? && iph.Length == 20
    modifies iph
    ensures iph[..] == Ip4Fields(c)
  {
    Memcpy(iph, 0, [0x45, 0] + Net16(20 + c.Size()));
    Memcpy(iph, 4, [0xde, 0xad, 0, 0, TTL, IPPROTO_VRRP, 0, 0]);
    Memcpy(iph, 12, c.addr);
    Memcpy(iph, 16, Group(V4));
  }

  /** `vrrp_adv_ip4_build`. */
  method Ip4Build(c: Config, iph: array<byte>)
    requires c.Valid() && c.family.V4? && iph.Length == 20
    modifies iph
    ensures iph[..] == IpHeader(c)
  {
    Ip4Fill(c, iph);
    assert iph[0..20] == iph[..];
    var sum := Cksum(c.host, iph, 0, 20);
    var field := Store16(c.host, sum);
    iph[10], iph[11] := field[0], field[1];
  }

  /** The IPv4 header passes the standard's test at any receiver. */
  lemma Ip4HeaderVerifies(c: Config)
    requires c.Valid() && c.family.V4?
    ensures AllOnes(Big, IpHeader(c))
  {
    var h := Ip4Fields(c);
    var p := IpHeader(c);
    assert PutWord(h, 10, [0, 0]) == h;
    PutTwice(h, 10, p[10..12], [0, 0]);
    ChecksumByteOrderIndependent(h, c.host);
    RecomputedVersusAllOnes(Big, p, 10);
  }

  // ----- the advertisement -----

  method WriteHeader(c: Config, prio: byte, pkt: array<byte>)
    requires c.Valid() && pkt.Length >= 8
    modifies pkt
    ensures pkt[..] == Header(c, prio)[..6] + old(pkt[6..])
  {
    pkt[0] := 16 * c.version + 1;
    pkt[1] := c.vrid;
    pkt[2] := prio;
    pkt[3] := |c.vips|;
    if c.version == 2 {
      pkt[4], pkt[5] := c.AuthType(), c.advInt % 256;
    } else {
      Memcpy(pkt, 4, Net16(c.advInt));
    }
  }

  /** Walks the list from its tail; the count check never fires on a list of `c.vips`. */
  method WriteAddresses(n: nat, vips: seq<seq<byte>>, list: VipList.List, pkt: array<byte>) returns (ok: bool, at: nat)
    requires list.Valid() && list.Addrs() == vips
    requires forall i :: 0 <= i < |vips| ==> |vips[i]| == n
    requires pkt.Length >= 8 + |vips| * n
    modifies pkt
    ensures ok && at == 8 + |vips| * n
    ensures pkt[..] == old(pkt[..8]) + Body(n, vips) + old(pkt[at..])
  {
    hide Body, VipList.List.Valid;
    at := 8;
    var naddr := 0;
    var pos := list.head.prev;
    ghost var k, written := |list.entries|, [];
    assert vips[..k] == vips;
    VipList.Closes(list);
    while pos != list.head
      invariant 0 <= k <= |vips| && pos == list.Ring()[k] && naddr == |vips| - k
      invariant 8 + |written| == at <= pkt.Length && pkt[..at] == old(pkt[..8]) + written
      invariant pkt[at..] == old(pkt[at..])
      invariant written + Body(n, vips[..k]) == Body(n, vips)
      decreases k
    {
      VipList.Back(list, k);
      BodySplit(n, vips, k, written);
      Append(pkt, at, pos.addr, old(pkt[..8]), written);
      assert old(pkt[at..])[n..] == old(pkt[at + n..]);
      written := written + pos.addr;
      at := at + n;
      naddr := naddr + 1;
      if naddr > |vips| {
        return false, at;
      }
      pos := pos.prev;
      k := k - 1;
    }
    if k > 0 {
      VipList.Back(list, k);
    }
    BodyEmpty(n, vips[..0]);
    assert pkt[..] == pkt[..at] + pkt[at..];
    ok := true;
  }

  /** Copies `x` behind `written`, which itself follows `head`. */
  method Append(pkt: array<byte>, at: nat, x: seq<byte>, ghost head: seq<byte>, ghost written: seq<byte>)
    requires at + |x| <= pkt.Length && pkt[..at] == head + written
    modifies pkt
    ensures pkt[..at + |x|] == head + (written + x)
    ensures pkt[at..][|x|..] == old(pkt[at..][|x|..])
  {
    Memcpy(pkt, at, x);
    assert pkt[..at + |x|] == pkt[..][..at + |x|] == old(pkt[..at]) + x;
    assert pkt[at..][|x|..] == pkt[..][at + |x|..];
    assert old(pkt[at..][|x|..]) == old(pkt[at + |x|..]);
  }

  lemma BodySplit(n: nat, vips: seq<seq<byte>>, k: nat, written: seq<byte>)
    requires forall i :: 0 <= i < |vips| ==> |vips[i]| == n
    requires 0 < k <= |vips|
    ensures written + Body(n, vips[..k]) == written + vips[k - 1] + Body(n, vips[..k - 1])
    ensures |written + Body(n, vips[..k])| >= |written| + n
  {
    assert vips[..k][..k - 1] == vips[..k - 1];
  }

  lemma BodyEmpty(n: nat, vips: seq<seq<byte>>)
    requires vips == []
    ensures Body(n, vips) == []
  {
  }

  /**
   `vrrp_adv_build` on an allocated buffer of any content: the registered
   addresses are written last first, and nothing else of the old content
   survives but unused authentication octets.
   */
  method Build(c: Config, prio: byte, list: VipList.List, pkt: array<byte>) returns (ok: bool)
    requires c.Valid() && list.Valid() && list.Addrs() == c.vips
    requires pkt.Length == c.Size()
    modifies pkt
    ensures ok && pkt[..] == Built(c, prio, old(JunkOf(c, pkt[..])))
  {
    ghost var junk := JunkOf(c, pkt[..]);
    WriteHeader(c, prio, pkt);
    assert pkt[..6] == Header(c, prio)[..6] && JunkOf(c, pkt[..]) == junk;
    var at;
    ok, at := WriteAddresses(AddrLen(c.family), c.vips, list, pkt);
    if !ok {
      return false;
    }
    assert pkt[..6] == Header(c, prio)[..6] && pkt[8..at] == Body(AddrLen(c.family), c.vips) && pkt[at..] == junk;
    WritePassword(c, pkt, at);
    ZeroedRaw(c, prio, junk, pkt[..]);
    SealOfSameZeroed(c, pkt[..], Raw(c, prio, junk));
    Reseal(c, pkt);
  }

  method WritePassword(c: Config, pkt: array<byte>, at: nat)
    requires c.Valid() && pkt.Length == c.Size() && at == 8 + |c.vips| * AddrLen(c.family)
    modifies pkt
    ensures pkt[..at] == old(pkt[..at]) && pkt[at..] == Trailer(c, old(pkt[at..]))
  {
    if c.version == 2 && c.auth.Simple? {
      Memcpy(pkt, at, c.auth.password);
    }
  }

  lemma ZeroedRaw(c: Config, prio: byte, junk: seq<byte>, pkt: seq<byte>)
    requires c.Valid() && |junk| == c.Size() - 8 - |c.vips| * AddrLen(c.family) && |pkt| == c.Size()
    requires pkt[..6] == Header(c, prio)[..6]
    requires pkt[8..8 + |c.vips| * AddrLen(c.family)] == Body(AddrLen(c.family), c.vips)
    requires pkt[8 + |c.vips| * AddrLen(c.family)..] == Trailer(c, junk)
    ensures Zeroed(pkt) == Zeroed(Raw(c, prio, junk))
  {
    var raw := Raw(c, prio, junk);
    assert raw[..6] == Header(c, prio)[..6];
    assert raw[8..8 + |c.vips| * AddrLen(c.family)] == Body(AddrLen(c.family), c.vips);
    assert raw[8 + |c.vips| * AddrLen(c.family)..] == Trailer(c, junk);
  }

  /** Recompute the checksum of the prepared packet with the instance's own addresses. */
  method Reseal(c: Config, pkt: array<byte>)
    requires c.Valid() && pkt.Length == c.Size()
    modifies pkt
    ensures pkt[..] == Seal(c, old(pkt[..]))
  {
    hide Chksum;
    ghost var was := pkt[..];
    assert pkt[0..c.Size()] == was;
    var sum := AdvChecksum(c, pkt, 0, c.addr, Group(c.family));
    var field := Store16(c.host, sum);
    Memcpy(pkt, 6, field);
    assert pkt[..] == PutWord(was, 6, field);
  }

  /** `vrrp_adv_set_priority`. */
  method SetPriority(c: Config, pkt: array<byte>, prio: byte)
    requires c.Valid() && pkt.Length == c.Size()
    modifies pkt
    ensures pkt[..] == Seal(c, old(pkt[..])[2 := prio])
  {
    pkt[2] := prio;
    Reseal(c, pkt);
  }

  /**
   `vrrp_adv_send_zero`: what is sent is the sealed packet of priority 0, and
   the buffer comes back octet for octet.
   */
  method SendZero(c: Config, pkt: array<byte>) returns (sent: seq<byte>)
    requires c.Valid() && pkt.Length == c.Size()
    modifies pkt
    ensures sent == Seal(c, old(pkt[..])[2 := 0])
    ensures pkt[..] == old(pkt[..])
  {
    var prio := pkt[2];
    pkt[2] := 0;
    var chksum := pkt[6..8];
    Reseal(c, pkt);
    sent := pkt[..];
    pkt[2] := prio;
    Memcpy(pkt, 6, chksum);
  }

  /** The `k`-th address in a built packet is the `k`-th registered counting from the end. */
  lemma BuiltAddresses(c: Config, prio: byte, junk: seq<byte>)
    requires c.Valid() && |junk| == c.Size() - 8 - |c.vips| * AddrLen(c.family)
    ensures forall k :: 0 <= k < |c.vips| ==>
                          VipList.PacketAddrs(c.family, Built(c, prio, junk), |c.vips|)[k]
                          == c.vips[|c.vips| - 1 - k]
  {
    forall k: nat | k < |c.vips|
      ensures 8 + (k + 1) * AddrLen(c.family) <= c.Size()
      ensures VipList.AddrAt(c.family, Built(c, prio, junk), k) == c.vips[|c.vips| - 1 - k]
    {
      BuiltAddressAt(c, prio, junk, k);
    }
  }

  lemma BuiltAddressAt(c: Config, prio: byte, junk: seq<byte>, k: nat)
    requires c.Valid() && |junk| == c.Size() - 8 - |c.vips| * AddrLen(c.family) && k < |c.vips|
    ensures 8 + (k + 1) * AddrLen(c.family) <= c.Size()
    ensures VipList.AddrAt(c.family, Built(c, prio, junk), k) == c.vips[|c.vips| - 1 - k]
  {
    hide Built, Body;
    BodyAt(AddrLen(c.family), c.vips, k);
    BodyInPacket(c, prio, junk);
    SliceOfSlice(Built(c, prio, junk), 8, |c.vips| * AddrLen(c.family),
                 k * AddrLen(c.family), (k + 1) * AddrLen(c.family));
  }

  lemma SliceOfSlice(s: seq<byte>, a: nat, n: nat, i: nat, j: nat)
    requires a + n <= |s| && i <= j <= n
    ensures s[a..a + n][i..j] == s[a + i..a + j]
  {
    var t := s[a..a + n];
    assert forall k :: i <= k < j ==> t[k] == s[a + k];
  }

  lemma BodyInPacket(c: Config, prio: byte, junk: seq<byte>)
    requires c.Valid() && |junk| == c.Size() - 8 - |c.vips| * AddrLen(c.family)
    ensures Built(c, prio, junk)[8..8 + |c.vips| * AddrLen(c.family)] == Body(AddrLen(c.family), c.vips)
  {
  }

  lemma ShiftedSlice(a: seq<byte>, b: seq<byte>, i: nat, j: nat)
    requires i <= j <= |b|
    ensures (a + b)[|a| + i..|a| + j] == b[i..j]
  {
  }

  lemma {:induction false} BodyAt(n: nat, vips: seq<seq<byte>>, k: nat)
    requires forall i :: 0 <= i < |vips| ==> |vips[i]| == n
    requires k < |vips|
    ensures (k + 1) * n <= |vips| * n
    ensures Body(n, vips)[k * n..(k + 1) * n] == vips[|vips| - 1 - k]
  {
    var last, front := vips[|vips| - 1], vips[..|vips| - 1];
    assert (k + 1) * n == k * n + n && |vips| * n == |front| * n + n;
    if k > 0 {
      BodyAt(n, front, k - 1);
      assert k * n == (k - 1) * n + n;
      ShiftedSlice(last, Body(n, front), (k - 1) * n, k * n);
    }
  }

  lemma TrailerInPacket(c: Config, prio: byte, junk: seq<byte>)
    requires c.Valid() && |junk| == c.Size() - 8 - |c.vips| * AddrLen(c.family)
    ensures Built(c, prio, junk)[8 + |c.vips| * AddrLen(c.family)..] == Trailer(c, junk)
  {
  }

  /** What a build leaves behind is a prepared packet. */
  lemma BuiltIsPrepared(c: Config, prio: byte, junk: seq<byte>)
    requires c.Valid() && |junk| == c.Size() - 8 - |c.vips| * AddrLen(c.family)
    ensures Prepared(c, prio, Built(c, prio, junk))
  {
    TrailerInPacket(c, prio, junk);
    var t := Trailer(c, junk);
    assert Trailer(c, t) == t;
  }
}
