/**
 The acceptance filter of `vrrp_net_recv`, and the round trip of a built
 advertisement through it.
 */
module Receive {
  import opened Bytes
  import opened Checksum
  import opened Address
  import opened Advert
  import opened Buffers
  import VipList

  /** `vrrp_event_t`; `NO_TIMER` is the exit taken when neither timer runs. */
  datatype Event = VRID_MISMATCH | INVALID | PKT | SIGNAL | CTRL_FIFO | TIMER | NO_TIMER

  const IP_MAXPACKET: nat := 65535
  const PKT_MINSIZE: int := 12
  const PKT_MAXSIZE: int := 1036

  /**
   One read from the raw socket: the whole buffer, of which `len` octets are
   new (-1 on failure). An IPv4 socket hands over the IP header in the buffer;
   an IPv6 socket reports addresses and hop limit beside it.
   */
  datatype Datagram = Datagram(buf: seq<byte>, len: int, src6: seq<byte>, dst6: seq<byte>, hopLimit: int) {
    predicate Valid() {
      |buf| == IP_MAXPACKET && -1 <= len <= IP_MAXPACKET && |src6| == |dst6| == 16
    }
  }

  /** The fields of `vnet->__pkt` that the state machine reads. */
  datatype Received = Received(src: seq<byte>, versionType: byte, priority: byte, adv4: byte, adv5: byte)

  /** `vrrp_adv_get_advint`. */
  function AdvIntOf(r: Received): word {
    if r.versionType / 16 == 3 then Load16(Big, r.adv4, r.adv5) else r.adv5
  }

  /** What `vrrp_ip4_recv` and `vrrp_ip6_recv` extract. */
  datatype Layer3 = Layer3(hlen: nat, totlen: int, proto: byte, ttl: int,
                           src: seq<byte>, dst: seq<byte>, payload: nat)

  function Parse(f: Family, d: Datagram): (h: Layer3)
    requires d.Valid()
    ensures |h.src| == |h.dst| == AddrLen(f) && h.payload <= 60
  {
    if f.V4? then
      var hlen := 4 * (d.buf[0] % 16);
      Layer3(hlen, Load16(Big, d.buf[2], d.buf[3]), d.buf[9], d.buf[8], d.buf[12..16], d.buf[16..20], hlen)
    else
      Layer3(40, 40 + d.len, IPPROTO_VRRP, d.hopLimit, d.src6, d.dst6, 0)
  }

  /** IPv4 takes the instance's own address for one that is zero. */
  function NonZeroOr(f: Family, a: seq<byte>, own: seq<byte>): (r: seq<byte>)
    requires |a| == |own| == AddrLen(f)
    ensures |r| == AddrLen(f)
  {
    if f.V4? && a == [0, 0, 0, 0] then own else a
  }

  /** The advertisement inside the receive buffer. */
  function Payload(c: Config, d: Datagram): (p: seq<byte>)
    requires c.Valid() && d.Valid()
    ensures |p| == c.Size()
  {
    var at := Parse(c.family, d).payload;
    d.buf[at..at + c.Size()]
  }

  function ReceiverChksum(c: Config, pkt: seq<byte>, h: Layer3): word
    requires c.Valid() && |pkt| == c.Size() && |h.src| == |h.dst| == AddrLen(c.family)
  {
    Chksum(c, pkt, NonZeroOr(c.family, h.src, c.addr), NonZeroOr(c.family, h.dst, Group(c.family)))
  }

  predicate LengthOk(c: Config, d: Datagram)
  {
    d.len != -1 && c.Size() <= d.len <= c.mtu
  }

  predicate AuthOk(c: Config, pkt: seq<byte>)
    requires c.Valid() && |pkt| == c.Size()
  {
    c.version == 3
    || (pkt[4] == c.AuthType()
        && (c.auth.Simple? ==> c.auth.password <= pkt[8 + |c.vips| * 4..]))
  }

  predicate VipsOk(c: Config, pkt: seq<byte>)
    requires c.Valid() && |pkt| == c.Size()
  {
    c.version == 3 || pkt[2] == OWNER
    || (pkt[3] == |c.vips| && |VipList.Missing(VipList.PacketAddrs(c.family, pkt, |c.vips|), c.vips)| == 0)
  }

  /** The checks on the advertisement itself, once the IP header has passed. */
  function PacketChecks(c: Config, prio: byte, pkt: seq<byte>, h: Layer3): Event
    requires c.Valid() && |pkt| == c.Size() && |h.src| == |h.dst| == AddrLen(c.family)
  {
    if pkt[0] / 16 != c.version then INVALID
    else if h.ttl != TTL then INVALID
    else if pkt[1] != c.vrid then VRID_MISMATCH
    else if ReceiverChksum(c, pkt, h) != Load16(c.host, pkt[6], pkt[7]) then INVALID
    else if prio == OWNER then INVALID
    else if !AuthOk(c, pkt) then INVALID
    else if !VipsOk(c, pkt) then INVALID
    else if pkt[5] != c.advInt then INVALID
    else PKT
  }

  /** The checks of `vrrp_net_recv`, in its order. */
  function Filter(c: Config, prio: byte, d: Datagram): Event
    requires c.Valid() && d.Valid()
  {
    var h := Parse(c.family, d);
    var size := (h.totlen - h.hlen) % TWO32;
    if !LengthOk(c, d) then INVALID
    else if size < PKT_MINSIZE || size > PKT_MAXSIZE then INVALID
    else if h.proto != IPPROTO_VRRP then INVALID
    else PacketChecks(c, prio, Payload(c, d), h)
  }

  /** The new content of `vnet->__pkt`: the version is wiped before any check of the packet. */
  function Stored(c: Config, prio: byte, d: Datagram, r: Received): (r': Received)
    requires c.Valid() && d.Valid()
  {
    var src, pkt := Parse(c.family, d).src, Payload(c, d);
    if !LengthOk(c, d) then r.(src := src)
    else if Filter(c, prio, d) == PKT then Received(src, pkt[0], pkt[2], pkt[4], pkt[5])
    else r.(src := src, versionType := 0)
  }

  // ----- what acceptance means -----

  /** Where the advertisement begins: behind an IPv4 header of as many words as octet 0 says. */
  function Offset(c: Config, d: Datagram): (n: nat)
    requires d.Valid()
    ensures n <= 60
  {
    if c.family.V4? then 4 * (d.buf[0] % 16) else 0
  }

  /** The octets of the advertisement. */
  function Octets(c: Config, d: Datagram): (p: seq<byte>)
    requires c.Valid() && d.Valid()
    ensures |p| == c.Size()
  {
    d.buf[Offset(c, d)..Offset(c, d) + c.Size()]
  }

  function Source(c: Config, d: Datagram): (a: seq<byte>)
    requires d.Valid()
    ensures |a| == AddrLen(c.family)
  {
    if c.family.V4? then d.buf[12..16] else d.src6
  }

  function Destination(c: Config, d: Datagram): (a: seq<byte>)
    requires d.Valid()
    ensures |a| == AddrLen(c.family)
  {
    if c.family.V4? then d.buf[16..20] else d.dst6
  }

  /**
   The frame, read off the datagram: its length, the size that the IP header
   announces for the payload, TTL (or hop limit) 255, protocol 112, and the
   version of the advertisement.
   */
  predicate WellFramed(c: Config, d: Datagram)
    requires c.Valid() && d.Valid()
  {
    && (if c.family.V4? then 16 + 4 * |c.vips| else 8 + 16 * |c.vips|) <= d.len <= c.mtu
    && 12 <= (if c.family.V4? then 256 * d.buf[2] + d.buf[3] - 4 * (d.buf[0] % 16) else d.len) <= 1036
    && (if c.family.V4? then d.buf[8] == 255 && d.buf[9] == 112 else d.hopLimit == 255)
    && Octets(c, d)[0] / 16 == c.version
  }

  /** The standard's checksum test, but for a stored 0xffff. */
  predicate ChecksumOk(c: Config, pkt: seq<byte>, src: seq<byte>, dst: seq<byte>)
    requires c.Valid() && |pkt| == c.Size() && |src| == |dst| == AddrLen(c.family)
  {
    Verifies(c, pkt, src, dst) && !(pkt[6] == pkt[7] == 0xff)
  }

  /**
   The conditions of section 7.1 of RFC 3768 and of RFC 5798 as the daemon
   takes them, in no particular order. Authentication and addresses matter in
   version 2 only, and the addresses not to packets of the owner.
   */
  predicate Acceptable(c: Config, prio: byte, d: Datagram)
    requires c.Valid() && d.Valid()
  {
    var p := Octets(c, d);
    && WellFramed(c, d) && p[1] == c.vrid && prio != 255 && p[5] == c.advInt
    && ChecksumOk(c, p, NonZeroOr(c.family, Source(c, d), c.addr),
                  NonZeroOr(c.family, Destination(c, d), Group(c.family)))
    && (c.version == 2 ==> p[4] == if c.auth.Simple? then 1 else 0)
    && (c.version == 2 && c.auth.Simple? ==> c.auth.password <= p[8 + |c.vips| * 4..])
    && (c.version == 2 && p[2] != 255 ==>
          && p[3] == |c.vips|
          && VipList.Elements(VipList.PacketAddrs(c.family, p, |c.vips|)) <= VipList.Elements(c.vips))
  }

  /**
   The sequence of checks accepts exactly the acceptable datagrams, and reports
   a foreign virtual router exactly for well-framed packets of another VRID.
   */
  lemma FilterExact(c: Config, prio: byte, d: Datagram)
    requires c.Valid() && d.Valid()
    ensures Filter(c, prio, d) == PKT <==> Acceptable(c, prio, d)
    ensures Filter(c, prio, d) == VRID_MISMATCH <==> WellFramed(c, d) && Octets(c, d)[1] != c.vrid
    ensures Filter(c, prio, d) in {PKT, INVALID, VRID_MISMATCH}
  {
    hide ChecksumOk, PacketChecks, Parse, Payload, NonZeroOr, Group, VipList.Elements, Octets, Source, Destination,
         WellFramed;
    var h := Parse(c.family, d);
    ParsedOctets(c, d);
    ParsedSizes(c.family, d);
    UnsignedSize(h.totlen - h.hlen);
    PacketChecksExact(c, prio, Payload(c, d), h);
  }

  /** What the daemon extracts from a datagram are those octets. */
  lemma ParsedOctets(c: Config, d: Datagram)
    requires c.Valid() && d.Valid()
    ensures Payload(c, d) == Octets(c, d)
    ensures var h := Parse(c.family, d);
            && h.src == Source(c, d) && h.dst == Destination(c, d)
            && (WellFramed(c, d) <==>
                && LengthOk(c, d) && PKT_MINSIZE <= h.totlen - h.hlen <= PKT_MAXSIZE
                && h.proto == IPPROTO_VRRP && h.ttl == TTL && Payload(c, d)[0] / 16 == c.version)
  {
  }

  lemma ParsedSizes(f: Family, d: Datagram)
    requires d.Valid()
    ensures var h := Parse(f, d);
            -60 <= h.totlen - h.hlen <= 65536 + IP_MAXPACKET
  {
  }

  /** The same for the checks on the advertisement itself. */
  lemma PacketChecksExact(c: Config, prio: byte, pkt: seq<byte>, h: Layer3)
    requires c.Valid() && |pkt| == c.Size() && |h.src| == |h.dst| == AddrLen(c.family)
    ensures PacketChecks(c, prio, pkt, h) == PKT
            <==> && pkt[0] / 16 == c.version && h.ttl == TTL
                 && pkt[1] == c.vrid && prio != OWNER && pkt[5] == c.advInt
                 && ChecksumOk(c, pkt, NonZeroOr(c.family, h.src, c.addr), NonZeroOr(c.family, h.dst, Group(c.family)))
                 && (c.version == 2 ==> pkt[4] == c.AuthType())
                 && (c.version == 2 && c.auth.Simple? ==> c.auth.password <= pkt[8 + |c.vips| * 4..])
                 && (c.version == 2 && pkt[2] != OWNER ==>
                       && pkt[3] == |c.vips|
                       && VipList.Elements(VipList.PacketAddrs(c.family, pkt, |c.vips|)) <= VipList.Elements(c.vips))
    ensures PacketChecks(c, prio, pkt, h) == VRID_MISMATCH
            <==> pkt[0] / 16 == c.version && h.ttl == TTL && pkt[1] != c.vrid
    ensures PacketChecks(c, prio, pkt, h) in {PKT, INVALID, VRID_MISMATCH}
  {
    hide Verifies, Chksum, NonZeroOr, Group, VipList.Missing, VipList.Elements;
    VipList.CompareZero(VipList.PacketAddrs(c.family, pkt, |c.vips|), c.vips);
    if pkt[0] / 16 == c.version {
      RecomputationIsStandard(c, pkt, NonZeroOr(c.family, h.src, c.addr), NonZeroOr(c.family, h.dst, Group(c.family)));
    }
  }

  /**
   What the address check of version 2 leaves open, for packets that are not
   the owner's: the announced set is the local one exactly when it has as many
   members, that is (with no repetition in the local list) when the packet
   repeats no address.
   */
  lemma AcceptedAddresses(c: Config, prio: byte, d: Datagram)
    requires c.Valid() && d.Valid() && Filter(c, prio, d) == PKT && c.version == 2 && Payload(c, d)[2] != OWNER
    ensures var addrs := VipList.PacketAddrs(c.family, Payload(c, d), |c.vips|);
            && VipList.Elements(addrs) <= VipList.Elements(c.vips)
            && (VipList.Elements(addrs) == VipList.Elements(c.vips)
                <==> |VipList.Elements(addrs)| == |VipList.Elements(c.vips)|)
            && (VipList.Distinct(c.vips) ==>
                  (VipList.Elements(addrs) == VipList.Elements(c.vips) <==> VipList.Distinct(addrs)))
  {
    hide Verifies, ReceiverChksum, Parse, AuthOk;
    var addrs := VipList.PacketAddrs(c.family, Payload(c, d), |c.vips|);
    VipList.CompareZero(addrs, c.vips);
    VipList.ZeroDecidesEquality(addrs, c.vips);
    VipList.CompareDecidesSetEquality(addrs, c.vips);
  }

  /** A negative size wraps around to one that is too large. */
  lemma UnsignedSize(n: int)
    requires -60 <= n <= 65536 + IP_MAXPACKET
    ensures PKT_MINSIZE <= n % TWO32 <= PKT_MAXSIZE <==> PKT_MINSIZE <= n <= PKT_MAXSIZE
  {
    if n < 0 {
      assert n % TWO32 == n + TWO32;
    }
  }

  /**
   Every accepted packet is genuine in the standard's sense, carries this
   instance's identity, and announces an interval that agrees with the local
   one modulo 256 -- which a local interval above 255 can never do. In version
   3 it agrees outright exactly when its high octet is zero, and the reserved
   bits stay out of it exactly when they are zero.
   */
  lemma AcceptanceMeans(c: Config, prio: byte, d: Datagram, r: Received)
    requires c.Valid() && d.Valid() && Filter(c, prio, d) == PKT
    ensures var pkt, h, s := Payload(c, d), Parse(c.family, d), Stored(c, prio, d, r);
            && Verifies(c, pkt, NonZeroOr(c.family, h.src, c.addr), NonZeroOr(c.family, h.dst, Group(c.family)))
            && prio != OWNER && WellFramed(c, d)
            && (if c.family.V4? then d.buf[8] == 255 && d.buf[9] == 112 else d.hopLimit == 255)
            && c.Size() <= d.len <= c.mtu
            && s.versionType != 0 && s.src == h.src && s.priority == pkt[2]
            && pkt == Octets(c, d) && h.src == Source(c, d) && h.dst == Destination(c, d)
            && c.advInt <= 255 && AdvIntOf(s) % 256 == c.advInt && AdvIntOf(s) >= c.advInt
            && (c.version == 2 ==> AdvIntOf(s) == c.advInt)
            && (c.version == 3 ==>
                  && (AdvIntOf(s) == c.advInt <==> pkt[4] == 0)
                  && (AdvIntOf(s) == MaxAdvInt(pkt) <==> pkt[4] < 16))
  {
    hide Verifies, Chksum, VipsOk, AuthOk, ChecksumOk, VipList.Elements;
    var pkt, h := Payload(c, d), Parse(c.family, d);
    RecomputationIsStandard(c, pkt, NonZeroOr(c.family, h.src, c.addr), NonZeroOr(c.family, h.dst, Group(c.family)));
    IntervalRead(Stored(c, prio, d, r), c.advInt);
    FilterExact(c, prio, d);
    ParsedOctets(c, d);
  }

  /**
   What a read leaves in the receive buffer: always the source address; the
   fields of the packet if it is accepted; and otherwise, unless the length was
   already wrong, no version, so that nothing is taken from it.
   */
  lemma BufferAfterRead(c: Config, prio: byte, d: Datagram, r: Received)
    requires c.Valid() && d.Valid()
    ensures var p, s := Octets(c, d), Stored(c, prio, d, r);
            && s.src == Source(c, d)
            && (Acceptable(c, prio, d) ==> s == Received(Source(c, d), p[0], p[2], p[4], p[5]))
            && (!Acceptable(c, prio, d) ==>
                  && s.priority == r.priority && s.adv4 == r.adv4 && s.adv5 == r.adv5
                  && var least := if c.family.V4? then 16 + 4 * |c.vips| else 8 + 16 * |c.vips|;
                     s.versionType == if least <= d.len <= c.mtu then 0 else r.versionType)
  {
    hide Acceptable, Filter, Octets, Source, Payload;
    FilterExact(c, prio, d);
    ParsedOctets(c, d);
    assert LengthOk(c, d) <== Filter(c, prio, d) == PKT by { AcceptedLength(c, prio, d); }
  }

  lemma AcceptedLength(c: Config, prio: byte, d: Datagram)
    requires c.Valid() && d.Valid()
    ensures Filter(c, prio, d) == PKT ==> LengthOk(c, d)
  {
    hide PacketChecks, Parse;
  }

  /** The field of section 5.2.7 of RFC 5798: the twelve bits behind the four reserved ones. */
  function MaxAdvInt(pkt: seq<byte>): word
    requires |pkt| >= 8
  {
    Load16(Big, pkt[4] % 16, pkt[5])
  }

  lemma IntervalRead(s: Received, advInt: word)
    requires s.adv5 == advInt
    ensures AdvIntOf(s) % 256 == advInt && AdvIntOf(s) >= advInt
    ensures s.versionType / 16 == 3 ==>
              && (AdvIntOf(s) == advInt <==> s.adv4 == 0)
              && (AdvIntOf(s) == Load16(Big, s.adv4 % 16, s.adv5) <==> s.adv4 < 16)
  {
  }

  // ----- round trip -----

  /** `d` is what a socket of family `f` reads when `fr` arrives, whatever else the buffer holds. */
  predicate Delivers(f: Family, fr: Frame, d: Datagram) {
    && d.Valid()
    && (f.V4? ==> |fr.ip| == 20 && d.len == 20 + |fr.adv| && d.buf[..d.len] == fr.ip + fr.adv)
    && (f.V6? ==> |fr.ip| == 40 && d.len == |fr.adv| && d.buf[..d.len] == fr.adv
                  && d.src6 == fr.ip[8..24] && d.dst6 == fr.ip[24..40] && d.hopLimit == fr.ip[7])
  }

  /** Two instances configured for the same virtual router, except perhaps for the interval. */
  predicate SameRouter(a: Config, b: Config) {
    && a.Valid() && b.Valid()
    && a.version == b.version && a.vrid == b.vrid && a.family == b.family && |a.vips| == |b.vips|
    && (a.version == 2 ==> a.auth == b.auth && VipList.Elements(a.vips) <= VipList.Elements(b.vips))
  }

  predicate Peers(a: Config, b: Config) {
    SameRouter(a, b) && a.advInt == b.advInt
  }

  predicate RealSource(a: Config) {
    a.family.V4? && a.version == 3 ==> a.addr != [0, 0, 0, 0]
  }

  lemma Ip4Octets(a: Config)
    requires a.Valid() && a.family.V4?
    ensures var ip := IpHeader(a);
            ip[0] == 0x45 && Load16(Big, ip[2], ip[3]) == 20 + a.Size() && ip[8] == TTL && ip[9] == IPPROTO_VRRP
            && ip[12..16] == a.addr && ip[16..20] == Group(V4)
  {
    var f := Ip4Fields(a);
    assert IpHeader(a)[..10] == f[..10] && IpHeader(a)[12..] == f[12..];
    assert f[2..4] == Net16(20 + a.Size());
    assert f[12..16] == a.addr;
    assert f[16..20] == Group(V4);
  }

  lemma Ip6Octets(a: Config)
    requires a.Valid() && a.family.V6?
    ensures var ip := IpHeader(a);
            ip[7] == TTL && ip[8..24] == a.addr && ip[24..40] == Group(V6)
  {
  }

  lemma ReadPrefix(buf: seq<byte>, x: seq<byte>, y: seq<byte>)
    requires |x| + |y| <= |buf| && buf[..|x| + |y|] == x + y
    ensures buf[|x|..|x| + |y|] == y
    ensures forall i :: 0 <= i < |x| ==> buf[i] == x[i]
    ensures forall i, j :: 0 <= i <= j <= |x| ==> buf[i..j] == x[i..j]
  {
    assert forall i :: 0 <= i < |x| + |y| ==> buf[i] == buf[..|x| + |y|][i];
  }

  lemma HeaderRead4(a: Config, adv: seq<byte>, d: Datagram)
    requires a.Valid() && a.family.V4? && Delivers(V4, Frame(IpHeader(a), adv), d)
    ensures var h := Parse(V4, d);
            h.totlen - h.hlen == a.Size() && h.proto == IPPROTO_VRRP && h.ttl == TTL
            && h.src == a.addr && h.dst == Group(V4) && h.payload == 20
    ensures d.buf[20..20 + |adv|] == adv
  {
    hide IpHeader, Group;
    Ip4Octets(a);
    ReadPrefix(d.buf, IpHeader(a), adv);
  }

  lemma HeaderRead(a: Config, b: Config, adv: seq<byte>, d: Datagram)
    requires SameRouter(a, b) && |adv| == a.Size()
    requires Delivers(b.family, Frame(IpHeader(a), adv), d)
    ensures var h := Parse(b.family, d);
            h.totlen - h.hlen == a.Size() && h.proto == IPPROTO_VRRP && h.ttl == TTL
            && h.src == a.addr && h.dst == Group(a.family)
    ensures Payload(b, d) == adv
  {
    if a.family.V4? {
      HeaderRead4(a, adv, d);
    } else {
      Ip6Octets(a);
    }
  }

  /** The receiver recomputes exactly the stored checksum, even across byte orders. */
  lemma ChecksumAgrees(a: Config, b: Config, p: byte, adv: seq<byte>)
    requires SameRouter(a, b) && Prepared(a, p, adv)
    ensures Chksum(b, adv, a.addr, Group(a.family)) == Load16(b.host, adv[6], adv[7])
  {
    var raw := Raw(a, p, JunkOf(a, adv));
    PutTwice(raw, 6, adv[6..8], [0, 0]);
    assert Zeroed(adv) == Zeroed(raw);
    assert raw[0] / 16 == a.version && adv[0] == raw[0];
    ChecksumIsStandard(a, raw, a.addr, Group(a.family));
    ChecksumIsStandard(b, adv, a.addr, Group(a.family));
    assert StandardPseudo(a, a.addr, Group(a.family)) == StandardPseudo(b, a.addr, Group(a.family));
    assert Store16(b.host, Chksum(b, adv, a.addr, Group(a.family))) == [adv[6], adv[7]];
  }

  lemma PeerVipsOk(a: Config, b: Config, p: byte, adv: seq<byte>)
    requires SameRouter(a, b) && Prepared(a, p, adv)
    ensures VipsOk(b, adv)
  {
    if a.version == 2 {
      var addrs := VipList.PacketAddrs(b.family, adv, |b.vips|);
      BuiltAddresses(a, p, JunkOf(a, adv));
      forall x | x in addrs
        ensures x in b.vips
      {
        var k :| 0 <= k < |addrs| && addrs[k] == x;
        assert x == a.vips[|a.vips| - 1 - k];
        assert x in VipList.Elements(a.vips);
      }
      VipList.CompareZero(addrs, b.vips);
    }
  }

  lemma PeerAuthOk(a: Config, b: Config, p: byte, adv: seq<byte>)
    requires SameRouter(a, b) && Prepared(a, p, adv)
    ensures AuthOk(b, adv)
  {
    PreparedFacts(a, p, adv);
    if a.version == 2 {
      assert adv[4] == Header(a, p)[4];
      TrailerInPacket(a, p, JunkOf(a, adv));
    }
  }

  /**
   A packet built by one instance and received by a peer, with anything else
   in the receive buffer and on hosts of any byte order, is accepted exactly
   when the low octet of its interval is the receiver's whole interval, the
   receiver is not the address owner, the packet fits the receiver's MTU and --
   at most 64 addresses in IPv6 -- the daemon's own size limit. What is then
   read back is what was sent. For equal intervals the first condition says
   that they fit one octet.
   */
  lemma RoundTrip(a: Config, b: Config, p: byte, adv: seq<byte>, prio: byte, d: Datagram, r: Received)
    requires SameRouter(a, b) && RealSource(a) && Prepared(a, p, adv)
    requires Delivers(b.family, Frame(IpHeader(a), adv), d)
    ensures Filter(b, prio, d) == PKT
            <==> a.advInt % 256 == b.advInt && prio != OWNER && d.len <= b.mtu && (b.family.V6? ==> |b.vips| <= 64)
    ensures a.advInt == b.advInt ==> (a.advInt % 256 == b.advInt <==> a.advInt <= 255)
    ensures Filter(b, prio, d) == PKT || Filter(b, prio, d) == INVALID
    ensures Filter(b, prio, d) == PKT ==>
              var s := Stored(b, prio, d, r);
              && s.priority == p && s.src == a.addr && s.versionType != 0
              && AdvIntOf(s) == if a.version == 3 then a.advInt else a.advInt % 256
  {
    hide Built, IpHeader, AuthOk, VipsOk, ReceiverChksum, PacketChecks;
    HeaderRead(a, b, adv, d);
    HeaderOctets(a, p, adv);
    PeerAuthOk(a, b, p, adv);
    PeerVipsOk(a, b, p, adv);
    PeerChecksum(a, b, p, adv, d);
    FilterOutcome(b, prio, d);
  }

  /** All checks but those on size, ownership and interval are assumed to pass. */
  lemma FilterOutcome(b: Config, prio: byte, d: Datagram)
    requires b.Valid() && d.Valid() && d.len >= b.Size()
    requires var h, pkt := Parse(b.family, d), Payload(b, d);
             && h.totlen - h.hlen == b.Size() && h.proto == IPPROTO_VRRP && h.ttl == TTL
             && pkt[0] / 16 == b.version && pkt[1] == b.vrid
             && ReceiverChksum(b, Payload(b, d), Parse(b.family, d)) == Load16(b.host, pkt[6], pkt[7])
             && AuthOk(b, pkt) && VipsOk(b, pkt)
    ensures Filter(b, prio, d) == PKT
            <==> Payload(b, d)[5] == b.advInt && prio != OWNER && d.len <= b.mtu && (b.family.V6? ==> |b.vips| <= 64)
    ensures Filter(b, prio, d) == PKT || Filter(b, prio, d) == INVALID
  {
    hide ReceiverChksum, AuthOk, VipsOk, Parse;
    SizeLimit(b);
  }

  lemma HeaderOctets(a: Config, p: byte, adv: seq<byte>)
    requires a.Valid() && Prepared(a, p, adv)
    ensures adv[0] / 16 == a.version && adv[1] == a.vrid && adv[2] == p
    ensures adv[5] == a.advInt % 256 && (a.version == 3 ==> Load16(Big, adv[4], adv[5]) == a.advInt)
  {
    PreparedFacts(a, p, adv);
    assert forall i :: 0 <= i < 6 ==> adv[i] == adv[..6][i];
  }

  lemma SizeLimit(b: Config)
    requires b.Valid()
    ensures PKT_MINSIZE <= b.Size() % TWO32
    ensures b.Size() % TWO32 <= PKT_MAXSIZE <==> (b.family.V6? ==> |b.vips| <= 64)
  {
  }

  lemma PeerChecksum(a: Config, b: Config, p: byte, adv: seq<byte>, d: Datagram)
    requires SameRouter(a, b) && RealSource(a) && Prepared(a, p, adv)
    requires Delivers(b.family, Frame(IpHeader(a), adv), d)
    ensures ReceiverChksum(b, Payload(b, d), Parse(b.family, d)) == Load16(b.host, adv[6], adv[7])
  {
    HeaderRead(a, b, adv, d);
    HeaderOctets(a, p, adv);
    ChecksumAgrees(a, b, p, adv);
    var h := Parse(b.family, d);
    if b.version == 3 {
      assert NonZeroOr(b.family, h.src, b.addr) == a.addr;
      assert NonZeroOr(b.family, h.dst, Group(b.family)) == Group(a.family);
    } else {
      ChecksumIgnoresAddresses(b, adv, a.addr, NonZeroOr(b.family, h.src, b.addr), h.dst);
    }
  }

  lemma ChecksumIgnoresAddresses(c: Config, pkt: seq<byte>, x: seq<byte>, y: seq<byte>, dst: seq<byte>)
    requires c.Valid() && c.version == 2 && |pkt| == c.Size() && pkt[0] / 16 == 2
    requires |x| == |y| == |dst| == AddrLen(c.family)
    ensures Chksum(c, pkt, x, dst) == Chksum(c, pkt, y, dst)
  {
  }

  // ----- corruption -----

  /** The datagram with one 16-bit word of its advertisement overwritten. */
  function Corrupt(c: Config, d: Datagram, i: nat, w: seq<byte>): (d': Datagram)
    requires c.Valid() && d.Valid() && i + 2 <= c.Size() && |w| == 2
    ensures d'.Valid()
  {
    d.(buf := PutWord(d.buf, Parse(c.family, d).payload + i, w))
  }

  lemma CorruptPayload(c: Config, d: Datagram, i: nat, w: seq<byte>)
    requires c.Valid() && d.Valid() && i + 2 <= c.Size() && |w| == 2
    requires c.family.V4? ==> Parse(V4, d).payload >= 20
    ensures var d' := Corrupt(c, d, i, w);
            Parse(c.family, d') == Parse(c.family, d) && Payload(c, d') == PutWord(Payload(c, d), i, w)
  {
    var d' := Corrupt(c, d, i, w);
    if c.family.V4? {
      assert d'.buf[..20] == d.buf[..20];
      assert d'.buf[0] == d'.buf[..20][0] && d'.buf[2] == d'.buf[..20][2] && d'.buf[3] == d'.buf[..20][3];
      assert d'.buf[8] == d'.buf[..20][8] && d'.buf[9] == d'.buf[..20][9];
      assert d'.buf[12..16] == d.buf[12..16] && d'.buf[16..20] == d.buf[16..20];
    }
  }

  /** Outside the checksum field, a changed word changes the checksum unless it exchanges 0 and 0xffff. */
  lemma ChecksumNotices(c: Config, pkt: seq<byte>, src: seq<byte>, dst: seq<byte>, i: nat, w: seq<byte>)
    requires c.Valid() && |pkt| == c.Size() && |src| == |dst| == AddrLen(c.family) && |w| == 2
    requires i % 2 == 0 && i + 2 <= c.Size() && i != 6
    requires pkt[0] / 16 == c.version && PutWord(pkt, i, w)[0] / 16 == c.version
    requires Chksum(c, PutWord(pkt, i, w), src, dst) == Chksum(c, pkt, src, dst)
    ensures w == pkt[i..i + 2] || Exchange(c.host, pkt[i..i + 2], w)
  {
    hide InternetChecksum, WordSum, Pseudo;
    var psh := Pseudo(c, c.version, src, dst);
    ZeroedCommutes(pkt, i, w);
    PutInSuffix(psh, Zeroed(pkt), i, w);
    WordBehind(psh, Zeroed(pkt), i);
    SingleWordChange(c.host, psh + Zeroed(pkt), |psh| + i, w);
    LoadInjective(c.host, pkt[i..i + 2], w);
  }

  lemma ZeroedCommutes(pkt: seq<byte>, i: nat, w: seq<byte>)
    requires |pkt| >= 8 && i % 2 == 0 && i + 2 <= |pkt| && i != 6 && |w| == 2
    ensures Zeroed(PutWord(pkt, i, w)) == PutWord(Zeroed(pkt), i, w)
    ensures Zeroed(pkt)[i] == pkt[i] && Zeroed(pkt)[i + 1] == pkt[i + 1]
  {
  }

  lemma WordBehind(a: seq<byte>, b: seq<byte>, i: nat)
    requires i + 2 <= |b|
    ensures (a + b)[|a| + i] == b[i] && (a + b)[|a| + i + 1] == b[i + 1]
  {
  }

  lemma LoadInjective(e: Endian, v: seq<byte>, w: seq<byte>)
    requires |v| == |w| == 2
    ensures Load16(e, v[0], v[1]) == Load16(e, w[0], w[1]) <==> v == w
  {
    assert v == Store16(e, Load16(e, v[0], v[1])) && w == Store16(e, Load16(e, w[0], w[1]));
  }

  predicate Exchange(e: Endian, v: seq<byte>, w: seq<byte>)
    requires |v| == |w| == 2
  {
    var x, y := Load16(e, v[0], v[1]), Load16(e, w[0], w[1]);
    (x == 0 && y == ONES) || (x == ONES && y == 0)
  }

  /**
   Overwriting any one word of an accepted advertisement makes the filter
   refuse it, unless the word is left as it was or 0x0000 and 0xffff are
   exchanged.
   */
  lemma CorruptionDetected(c: Config, prio: byte, d: Datagram, i: nat, w: seq<byte>)
    requires c.Valid() && d.Valid() && i % 2 == 0 && i + 2 <= c.Size() && |w| == 2
    requires c.family.V4? ==> Parse(V4, d).payload >= 20
    requires Filter(c, prio, d) == PKT
    ensures Filter(c, prio, Corrupt(c, d, i, w)) == PKT ==>
              w == Payload(c, d)[i..i + 2] || Exchange(c.host, Payload(c, d)[i..i + 2], w)
  {
    CorruptPayload(c, d, i, w);
    if Filter(c, prio, Corrupt(c, d, i, w)) == PKT {
      var h := Parse(c.family, d);
      SameStoredOrExchange(c, Payload(c, d), NonZeroOr(c.family, h.src, c.addr),
                           NonZeroOr(c.family, h.dst, Group(c.family)), i, w);
    }
  }

  lemma SameStoredOrExchange(c: Config, pkt: seq<byte>, src: seq<byte>, dst: seq<byte>, i: nat, w: seq<byte>)
    requires c.Valid() && |pkt| == c.Size() && |src| == |dst| == AddrLen(c.family) && |w| == 2
    requires i % 2 == 0 && i + 2 <= c.Size()
    requires pkt[0] / 16 == c.version && PutWord(pkt, i, w)[0] / 16 == c.version
    requires Chksum(c, pkt, src, dst) == Load16(c.host, pkt[6], pkt[7])
    requires var q := PutWord(pkt, i, w);
             Chksum(c, q, src, dst) == Load16(c.host, q[6], q[7])
    ensures w == pkt[i..i + 2] || Exchange(c.host, pkt[i..i + 2], w)
  {
    if i == 6 {
      PutTwice(pkt, 6, w, [0, 0]);
      assert pkt[6..8] == Store16(c.host, Load16(c.host, pkt[6], pkt[7])) == w;
    } else {
      ChecksumNotices(c, pkt, src, dst, i, w);
    }
  }

  /** The addresses that a version 3 checksum covers: source, then destination. */
  function CoveredAddrs(c: Config, d: Datagram): (s: seq<byte>)
    requires c.Valid() && d.Valid()
    ensures |s| == 2 * AddrLen(c.family)
  {
    var h := Parse(c.family, d);
    NonZeroOr(c.family, h.src, c.addr) + NonZeroOr(c.family, h.dst, Group(c.family))
  }

  lemma PutInPrefix(a: seq<byte>, b: seq<byte>, i: nat, w: seq<byte>)
    requires i + 2 <= |a| && |w| == 2
    ensures PutWord(a + b, i, w) == PutWord(a, i, w) + b
  {
  }

  /** The part of the pseudo-header behind the addresses. */
  function PseudoTail(c: Config): (s: seq<byte>)
    requires c.Valid()
    ensures |s| % 2 == 0
  {
    if c.family.V6? then Len32(c.host, c.Size()) + [0, 0, 0, IPPROTO_VRRP] else [0, IPPROTO_VRRP] + Net16(c.Size())
  }

  lemma AddressesLead(c: Config, d: Datagram, pkt: seq<byte>)
    requires c.Valid() && d.Valid() && c.version == 3 && |pkt| == c.Size() && pkt[0] / 16 == 3
    ensures ReceiverChksum(c, pkt, Parse(c.family, d))
            == InternetChecksum(c.host, CoveredAddrs(c, d) + (PseudoTail(c) + Zeroed(pkt)))
  {
    hide InternetChecksum, Parse;
    var h := Parse(c.family, d);
    var src, dst := NonZeroOr(c.family, h.src, c.addr), NonZeroOr(c.family, h.dst, Group(c.family));
    assert Pseudo(c, 3, src, dst) + Zeroed(pkt) == CoveredAddrs(c, d) + (PseudoTail(c) + Zeroed(pkt));
  }

  /**
   In version 3 the same holds of the addresses: of two datagrams with one
   advertisement whose covered addresses differ in one word, at most one is
   accepted, unless 0x0000 and 0xffff are exchanged.
   */
  lemma AddressChangeDetected(c: Config, prio: byte, d: Datagram, d': Datagram, i: nat, w: seq<byte>)
    requires c.Valid() && d.Valid() && d'.Valid() && c.version == 3 && Payload(c, d') == Payload(c, d)
    requires i % 2 == 0 && i + 2 <= 2 * AddrLen(c.family) && |w| == 2
    requires CoveredAddrs(c, d') == PutWord(CoveredAddrs(c, d), i, w)
    requires Filter(c, prio, d) == PKT
    ensures Filter(c, prio, d') == PKT ==>
              w == CoveredAddrs(c, d)[i..i + 2] || Exchange(c.host, CoveredAddrs(c, d)[i..i + 2], w)
  {
    hide InternetChecksum, CoveredAddrs, Parse, AuthOk, VipsOk, ReceiverChksum, PseudoTail, WordSum;
    if Filter(c, prio, d') == PKT {
      var pkt, a := Payload(c, d), CoveredAddrs(c, d);
      var rest := PseudoTail(c) + Zeroed(pkt);
      AddressesLead(c, d, pkt);
      AddressesLead(c, d', pkt);
      PutInPrefix(a, rest, i, w);
      SingleWordChange(c.host, a + rest, i, w);
      LoadInjective(c.host, a[i..i + 2], w);
    }
  }

  /** The datagram with one word of its source and destination addresses overwritten. */
  function Redirect(c: Config, d: Datagram, i: nat, w: seq<byte>): (d': Datagram)
    requires c.Valid() && d.Valid() && i % 2 == 0 && i + 2 <= 2 * AddrLen(c.family) && |w| == 2
    ensures d'.Valid()
  {
    if c.family.V4? then d.(buf := PutWord(d.buf, 12 + i, w))
    else if i < 16 then d.(src6 := PutWord(d.src6, i, w))
    else d.(dst6 := PutWord(d.dst6, i - 16, w))
  }

  predicate NamesZero(c: Config, d: Datagram)
    requires d.Valid()
  {
    var h := Parse(c.family, d);
    c.family.V4? && (h.src == [0, 0, 0, 0] || h.dst == [0, 0, 0, 0])
  }

  lemma RedirectReads(c: Config, d: Datagram, i: nat, w: seq<byte>)
    requires c.Valid() && d.Valid() && i % 2 == 0 && i + 2 <= 2 * AddrLen(c.family) && |w| == 2
    requires c.family.V4? ==> Parse(V4, d).payload >= 20
    ensures var d' := Redirect(c, d, i, w);
            && Payload(c, d') == Payload(c, d)
            && (!NamesZero(c, d) && !NamesZero(c, d') ==> CoveredAddrs(c, d') == PutWord(CoveredAddrs(c, d), i, w))
  {
    var d' := Redirect(c, d, i, w);
    var h, h' := Parse(c.family, d), Parse(c.family, d');
    if c.family.V4? {
      assert h.src + h.dst == d.buf[12..20] && h'.src + h'.dst == d'.buf[12..20];
      assert d'.buf[12..20] == PutWord(d.buf[12..20], i, w);
      assert d'.buf[0] == d.buf[0] && d'.buf[20..] == d.buf[20..];
      var at, n := h.payload, c.Size();
      assert d.buf[at..at + n] == d.buf[20..][at - 20..at - 20 + n];
      assert d'.buf[at..at + n] == d'.buf[20..][at - 20..at - 20 + n];
    } else {
      assert h'.src + h'.dst == PutWord(h.src + h.dst, i, w);
    }
  }

  lemma SameChecksum(e: Endian, x: seq<byte>, y: seq<byte>, rest: seq<byte>)
    requires |x| % 2 == 0 && |y| % 2 == 0 && |rest| % 2 == 0 && WordSum(e, rest) > 0
    ensures InternetChecksum(e, x + rest) == InternetChecksum(e, y + rest)
            <==> (WordSum(e, x) - WordSum(e, y)) % ONES == 0
  {
    hide OnesSum, WordSum;
    WordSumConcat(e, x, rest);
    WordSumConcat(e, y, rest);
    OnesSumIsResidue(e, x + rest);
    OnesSumIsResidue(e, y + rest);
    SameResidueModulo(WordSum(e, x + rest), WordSum(e, y + rest));
  }

  lemma SameResidueModulo(s: nat, t: nat)
    requires s > 0 && t > 0
    ensures Residue(s) == Residue(t) <==> (s - t) % ONES == 0
  {
    var a, b := (s - 1) / ONES, (t - 1) / ONES;
    assert s == a * ONES + Residue(s) && t == b * ONES + Residue(t);
    assert s - t == (a - b) * ONES + (Residue(s) - Residue(t));
    assert (a - b) * ONES % ONES == 0;
  }

  lemma TailCounts(c: Config, z: seq<byte>)
    requires c.Valid() && |z| % 2 == 0 && |z| >= 2 && z[0] > 0
    ensures WordSum(c.host, PseudoTail(c) + z) > 0
  {
    hide WordSum;
    WordSumConcat(c.host, PseudoTail(c), z);
    PositiveSum(c.host, z);
  }

  lemma RedirectHeader(c: Config, d: Datagram, i: nat, w: seq<byte>)
    requires c.Valid() && d.Valid() && i % 2 == 0 && i + 2 <= 2 * AddrLen(c.family) && |w| == 2
    ensures var h, h' := Parse(c.family, d), Parse(c.family, Redirect(c, d, i, w));
            h' == h.(src := h'.src, dst := h'.dst) && Redirect(c, d, i, w).len == d.len
  {
    var d' := Redirect(c, d, i, w);
    if c.family.V4? {
      assert d'.buf[0] == d.buf[0] && d'.buf[2] == d.buf[2] && d'.buf[3] == d.buf[3];
      assert d'.buf[8] == d.buf[8] && d'.buf[9] == d.buf[9];
    }
  }

  /**
   Overwriting any one word of the addresses of an accepted version 3 packet:
   it is still accepted exactly when the addresses that the checksum covers --
   an IPv4 address of zero stands for another one -- keep their sum modulo
   0xffff. Where no zero address is involved, that means that the word is left
   as it was, or 0x0000 and 0xffff are exchanged.
   */
  lemma RedirectionDetected(c: Config, prio: byte, d: Datagram, i: nat, w: seq<byte>)
    requires c.Valid() && d.Valid() && c.version == 3 && Filter(c, prio, d) == PKT
    requires i % 2 == 0 && i + 2 <= 2 * AddrLen(c.family) && |w| == 2
    requires c.family.V4? ==> Parse(V4, d).payload >= 20
    ensures var d' := Redirect(c, d, i, w);
            && (Filter(c, prio, d') == PKT
                <==> (WordSum(c.host, CoveredAddrs(c, d')) - WordSum(c.host, CoveredAddrs(c, d))) % ONES == 0)
            && (!NamesZero(c, d) && !NamesZero(c, d') ==>
                  (Filter(c, prio, d') == PKT <==>
                   w == CoveredAddrs(c, d)[i..i + 2] || Exchange(c.host, CoveredAddrs(c, d)[i..i + 2], w)))
  {
    hide CoveredAddrs, Redirect, NamesZero, Parse, Payload, PseudoTail, InternetChecksum, WordSum, AuthOk, VipsOk,
         ReceiverChksum, Chksum;
    var d' := Redirect(c, d, i, w);
    var pkt, x, y := Payload(c, d), CoveredAddrs(c, d), CoveredAddrs(c, d');
    var rest := PseudoTail(c) + Zeroed(pkt);
    RedirectReads(c, d, i, w);
    RedirectHeader(c, d, i, w);
    AddressesLead(c, d, pkt);
    AddressesLead(c, d', pkt);
    TailCounts(c, Zeroed(pkt));
    SameChecksum(c.host, y, x, rest);
    if !NamesZero(c, d) && !NamesZero(c, d') {
      WordSumPut(c.host, x, i, w);
      LoadInjective(c.host, x[i..i + 2], w);
      WordModulo(Load16(c.host, w[0], w[1]), Load16(c.host, x[i], x[i + 1]));
    }
  }

  lemma WordModulo(v: word, w: word)
    ensures (v - w) % ONES == 0 <==> v == w || (v == 0 && w == ONES) || (v == ONES && w == 0)
  {
  }

  /** An IPv4 datagram with another source address. */
  function From(d: Datagram, a: seq<byte>): (d': Datagram)
    requires d.Valid() && |a| == 4
    ensures d'.Valid()
  {
    d.(buf := d.buf[..12] + a + d.buf[16..])
  }

  lemma FromReads(c: Config, d: Datagram, a: seq<byte>)
    requires c.Valid() && d.Valid() && c.family.V4? && |a| == 4 && Parse(V4, d).payload >= 20
    ensures Parse(V4, From(d, a)) == Parse(V4, d).(src := a) && Payload(c, From(d, a)) == Payload(c, d)
  {
    var d' := From(d, a);
    assert d'.buf[..12] == d.buf[..12] && d'.buf[16..] == d.buf[16..];
    assert forall i :: 0 <= i < 12 ==> d'.buf[i] == d'.buf[..12][i] == d.buf[i];
    assert d'.buf[16..20] == d'.buf[16..][..4];
    var at, n := Parse(V4, d).payload, c.Size();
    assert d.buf[at..at + n] == d.buf[16..][at - 16..at - 16 + n];
    assert d'.buf[at..at + n] == d'.buf[16..][at - 16..at - 16 + n];
  }

  /** What a zero source stands for: the filter takes it for the receiver's own address. */
  lemma ZeroSourceIsOwn(c: Config, prio: byte, d: Datagram)
    requires c.Valid() && d.Valid() && c.family.V4? && Parse(V4, d).payload >= 20
    ensures Filter(c, prio, From(d, [0, 0, 0, 0])) == Filter(c, prio, From(d, c.addr))
  {
    hide Parse, Payload, Chksum, AuthOk, VipsOk;
    FromReads(c, d, [0, 0, 0, 0]);
    FromReads(c, d, c.addr);
  }

  /** An IPv4 datagram with another destination address. */
  function To(d: Datagram, a: seq<byte>): (d': Datagram)
    requires d.Valid() && |a| == 4
    ensures d'.Valid()
  {
    d.(buf := d.buf[..16] + a + d.buf[20..])
  }

  lemma ToReads(c: Config, d: Datagram, a: seq<byte>)
    requires c.Valid() && d.Valid() && c.family.V4? && |a| == 4 && Parse(V4, d).payload >= 20
    ensures Parse(V4, To(d, a)) == Parse(V4, d).(dst := a) && Payload(c, To(d, a)) == Payload(c, d)
  {
    var d' := To(d, a);
    assert d'.buf[..16] == d.buf[..16] && d'.buf[20..] == d.buf[20..];
    assert forall i :: 0 <= i < 16 ==> d'.buf[i] == d'.buf[..16][i] == d.buf[i];
    assert d'.buf[12..16] == d'.buf[..16][12..] && d.buf[12..16] == d.buf[..16][12..];
    var at, n := Parse(V4, d).payload, c.Size();
    assert d.buf[at..at + n] == d.buf[20..][at - 20..at - 20 + n];
    assert d'.buf[at..at + n] == d'.buf[20..][at - 20..at - 20 + n];
  }

  /** And a zero destination for the group. */
  lemma ZeroDestinationIsGroup(c: Config, prio: byte, d: Datagram)
    requires c.Valid() && d.Valid() && c.family.V4? && Parse(V4, d).payload >= 20
    ensures Filter(c, prio, To(d, [0, 0, 0, 0])) == Filter(c, prio, To(d, [224, 0, 0, 18]))
  {
    hide Parse, Payload, Chksum, AuthOk, VipsOk;
    ToReads(c, d, [0, 0, 0, 0]);
    ToReads(c, d, [224, 0, 0, 18]);
  }
}
