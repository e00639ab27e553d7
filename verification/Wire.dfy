/**
 What the two RFCs say is on the wire, read off the octets alone: an
 independent decoder of advertisements and the fields of the IP headers.
 */
module Wire {
  import opened Bytes
  import opened Address
  import opened Advert
  import opened Buffers
  import opened Receive
  import VipList

  /** Two octets in network order. */
  function Number(high: int, low: int): int {
    256 * high + low
  }

  /** The fields of section 5.1 of RFC 3768 and of RFC 5798. */
  datatype Decoded =
    | Malformed
    | Version2(kind: int, vrid: byte, priority: byte, authType: byte, interval: int, addrs: seq<seq<byte>>)
    | Version3(kind: int, vrid: byte, priority: byte, reserved: int, interval: int, addrs: seq<seq<byte>>)

  /** Decodes an advertisement; the fourth octet counts its addresses. */
  function Decode(f: Family, p: seq<byte>): Decoded {
    if |p| < 8 || |p| < 8 + p[3] * AddrLen(f) then Malformed
    else
      var addrs := VipList.PacketAddrs(f, p, p[3]);
      if p[0] / 16 == 2 then Version2(p[0] % 16, p[1], p[2], p[4], p[5], addrs)
      else if p[0] / 16 == 3 then Version3(p[0] % 16, p[1], p[2], p[4] / 16, Number(p[4] % 16, p[5]), addrs)
      else Malformed
  }

  /** An advertisement (type 1) of this configuration with priority `prio`, its addresses last registered first. */
  function Intended(c: Config, prio: byte): Decoded {
    var addrs := seq(|c.vips|, k requires 0 <= k < |c.vips| => c.vips[|c.vips| - 1 - k]);
    if c.version == 2 then Version2(1, c.vrid, prio, if c.auth.Simple? then 1 else 0, c.advInt % 256, addrs)
    else Version3(1, c.vrid, prio, 0, c.advInt, addrs)
  }

  /** What is built decodes to what was meant, whatever the allocator returned. */
  lemma DecodeBuilt(c: Config, prio: byte, junk: seq<byte>)
    requires c.Valid() && |junk| == c.Size() - 8 - |c.vips| * AddrLen(c.family)
    ensures Decode(c.family, Built(c, prio, junk)) == Intended(c, prio)
  {
    hide Built;
    var p := Built(c, prio, junk);
    BuiltHead(c, prio, junk);
    BuiltAddresses(c, prio, junk);
    assert VipList.PacketAddrs(c.family, p, |c.vips|)
        == seq(|c.vips|, k requires 0 <= k < |c.vips| => c.vips[|c.vips| - 1 - k]);
  }

  lemma BuiltHead(c: Config, prio: byte, junk: seq<byte>)
    requires c.Valid() && |junk| == c.Size() - 8 - |c.vips| * AddrLen(c.family)
    ensures var p := Built(c, prio, junk);
            && p[0] / 16 == c.version && p[0] % 16 == 1 && p[1] == c.vrid && p[2] == prio && p[3] == |c.vips|
            && (c.version == 2 ==> p[4] == (if c.auth.Simple? then 1 else 0) && p[5] == c.advInt % 256)
            && (c.version == 3 ==> p[4] < 16 && Number(p[4], p[5]) == c.advInt)
  {
    hide Chksum;
    var p, h := Built(c, prio, junk), Header(c, prio);
    assert forall i :: 0 <= i < 6 ==> p[i] == h[i];
  }

  /**
   The size of a built advertisement and what follows its addresses: in IPv4
   eight octets, which hold the password in version 2 with authentication and
   are left as the allocator returned them otherwise; in IPv6 nothing.
   */
  lemma BuiltTail(c: Config, prio: byte, junk: seq<byte>)
    requires c.Valid() && |junk| == c.Size() - 8 - |c.vips| * AddrLen(c.family)
    ensures var p, n := Built(c, prio, junk), |c.vips|;
            if c.family.V6? then |p| == 8 + 16 * n
            else && |p| == 16 + 4 * n && |junk| == 8
                 && p[8 + 4 * n..] == if c.version == 2 && c.auth.Simple?
                                      then c.auth.password + junk[|c.auth.password|..] else junk
  {
    hide Built;
    TrailerInPacket(c, prio, junk);
  }

  /** The IPv4 header of RFC 791 that precedes every advertisement, but for its checksum. */
  predicate Ip4As(c: Config, ip: seq<byte>)
    requires |c.addr| == 4
  {
    && |ip| == 20 && ip[0] == 0x45 && ip[1] == 0 && Number(ip[2], ip[3]) == 36 + 4 * |c.vips|
    && ip[4..10] == [0xde, 0xad, 0, 0, 255, 112] && ip[12..16] == c.addr && ip[16..20] == [224, 0, 0, 18]
  }

  /** The IPv6 header of section 3 of RFC 2460. */
  predicate Ip6As(c: Config, ip: seq<byte>)
    requires |c.addr| == 16
  {
    && |ip| == 40 && ip[0..4] == [0x60, 0, 0, 0] && Number(ip[4], ip[5]) == 8 + 16 * |c.vips|
    && ip[6] == 112 && ip[7] == 255 && ip[8..24] == c.addr
    && ip[24..40] == [0xff, 0x02, 0, 0, 0, 0, 0, 0, 0, 0, 0, 0, 0, 0, 0, 0x12]
  }

  lemma HeaderAsStandard(c: Config)
    requires c.Valid()
    ensures if c.family.V4? then Ip4As(c, IpHeader(c)) else Ip6As(c, IpHeader(c))
  {
    if c.family.V4? {
      var ip, f := IpHeader(c), Ip4Fields(c);
      assert ip[..10] == f[..10] && ip[12..] == f[12..];
      assert forall i :: 0 <= i < 10 ==> ip[i] == ip[..10][i];
      assert f[2..4] == Net16(20 + c.Size()) && f[2] == f[2..4][0] && f[3] == f[2..4][1];
      assert ip[4..10] == ip[..10][4..10] && f[4..10] == f[..10][4..10];
      Ip4Octets(c);
    } else {
      var ip := IpHeader(c);
      assert ip[4..6] == Net16(c.Size()) && ip[4] == ip[4..6][0] && ip[5] == ip[4..6][1];
    }
  }

  /** A frame of this instance, as the RFCs describe it. */
  predicate OnTheWire(c: Config, prio: byte, fr: Frame)
    requires c.Valid()
  {
    && (if c.family.V4? then Ip4As(c, fr.ip) else Ip6As(c, fr.ip))
    && |fr.adv| == c.Size() && Decode(c.family, fr.adv) == Intended(c, prio)
    && Verifies(c, fr.adv, c.addr, Group(c.family))
  }

  lemma PreparedOnTheWire(c: Config, prio: byte, pkt: seq<byte>)
    requires c.Valid() && Prepared(c, prio, pkt)
    ensures OnTheWire(c, prio, Frame(IpHeader(c), pkt))
  {
    hide Built, IpHeader, Verifies, Decode, Intended, Ip4As, Ip6As;
    HeaderAsStandard(c);
    DecodeBuilt(c, prio, JunkOf(c, pkt));
    PreparedFacts(c, prio, pkt);
  }
}
