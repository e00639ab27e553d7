/**
 Inputs on which the daemon does something else than one might expect, each
 beside the lemma that says exactly when it happens.
 */
module Departures {
  import opened Bytes
  import opened Checksum
  import opened Address
  import opened Advert
  import opened Buffers
  import opened Receive
  import opened Timers
  import opened Machine
  import opened Runs
  import opened Timed
  import opened Election
  import opened Convergence
  import opened Service
  import opened Scenario
  import VipList

  // ----- addresses far apart -----

  /** Version 2 routers of priority 100 on the given addresses, each master and due at six seconds. */
  lemma {:induction false} MastersAt(addrs: seq<seq<byte>>) returns (n: Net)
    requires forall j :: 0 <= j < |addrs| ==> |addrs[j]| == 4
    ensures |n| == |addrs| && Gathered(n, 5)
    ensures forall j :: 0 <= j < |n| ==>
              n[j].state == MASTER && n[j].cfg == SiteAt(Big, addrs[j]) && n[j].priority == 100
  {
    hide IsTrace, Attends, AwaitedDeadline, Peers;
    if addrs == [] {
      n := [];
    } else {
      var m := |addrs| - 1;
      var before := MastersAt(addrs[..m]);
      var trace, inputs := LoneMaster(SiteAt(Big, addrs[m]), 100);
      LoneMasterAhead(trace[2]);
      n := before + [trace[2]];
      forall i, j | 0 <= i < |n| && 0 <= j < |n| && i != j
        ensures Peers(n[i].cfg, n[j].cfg)
      {
        SitesArePeers(addrs[i], addrs[j]);
      }
    }
  }

  lemma SitesArePeers(a: seq<byte>, b: seq<byte>)
    requires |a| == |b| == 4
    ensures Peers(SiteAt(Big, a), SiteAt(Big, b))
  {
  }

  /**
   Three masters of equal priority, of which any two alone would settle: each
   is beaten by another, and a complete round leaves no master at all.
   */
  lemma NoMasterLeft() returns (trace: seq<Net>, ds: seq<Delivery>)
    ensures IsRound(trace, ds) && Complete(trace[0], ds) && |trace[0]| == |trace[|ds|]| == 3
    ensures forall j :: 0 <= j < 3 ==> trace[0][j].state == MASTER && trace[|ds|][j].state == BACKUP
    ensures forall i, j :: 0 <= i < j < 3 ==> Decided(trace[0][i].cfg.addr, trace[0][j].cfg.addr)
  {
    hide Attends, AwaitedDeadline, Peers, Ip4Cmp, Delivered, Feasible, Complete, Decided;
    var addrs: seq<seq<byte>> := [[0, 0, 0, 1], [100, 0, 0, 1], [200, 0, 0, 1]];
    var n := MastersAt(addrs);
    var pairs := [(1, 0), (2, 0), (0, 1), (2, 1), (0, 2), (1, 2)];
    assert Feasible(n, pairs) by { FeasibleThree(n); }
    trace, ds := RoundExists(n, 5, pairs);
    CompleteThree(n, ds);
    Ip4CmpCycle();
    assert Beats(n[1], n[0]) && Beats(n[2], n[1]) && Beats(n[0], n[2]);
    UnbeatenRemain(trace, ds, 0);
    UnbeatenRemain(trace, ds, 1);
    UnbeatenRemain(trace, ds, 2);
    CycleDecided();
  }

  /** The condition of `Convergence.TieBreakExact` on the addresses of two masters. */
  predicate Decided(a: seq<byte>, b: seq<byte>) {
    Value(a) != Value(b) && Value(a) - Value(b) != TWO31 && Value(b) - Value(a) != TWO31
  }

  lemma CycleDecided()
    ensures Decided([0, 0, 0, 1], [100, 0, 0, 1]) && Decided([0, 0, 0, 1], [200, 0, 0, 1])
    ensures Decided([100, 0, 0, 1], [200, 0, 0, 1])
  {
    hide Value;
    Value4(0, 0, 0, 1);
    Value4(100, 0, 0, 1);
    Value4(200, 0, 0, 1);
  }

  lemma FeasibleThree(n: Net)
    requires |n| == 3 && n[0].state == n[1].state == n[2].state == MASTER
    ensures Feasible(n, [(1, 0), (2, 0), (0, 1), (2, 1), (0, 2), (1, 2)])
  {
  }

  lemma CompleteThree(n: Net, ds: seq<Delivery>)
    requires |n| == 3 && |ds| == 6
    requires ds[0].sender == ds[2].receiver == 1 && ds[0].receiver == ds[2].sender == 0
    requires ds[1].sender == ds[4].receiver == 2 && ds[1].receiver == ds[4].sender == 0
    requires ds[3].sender == ds[5].receiver == 2 && ds[3].receiver == ds[5].sender == 1
    ensures Complete(n, ds)
  {
    assert Reached(ds, 6, 1, 0) && Reached(ds, 6, 0, 1) && Reached(ds, 6, 2, 0);
    assert Reached(ds, 6, 0, 2) && Reached(ds, 6, 2, 1) && Reached(ds, 6, 1, 2);
  }

  /** Two masters of equal priority exactly half the address space apart: neither beats the other, and both stay. */
  lemma BothStay() returns (trace: seq<Net>, ds: seq<Delivery>)
    ensures IsRound(trace, ds) && Complete(trace[0], ds) && |trace[0]| == |trace[|ds|]| == 2
    ensures trace[0][0].cfg.addr != trace[0][1].cfg.addr
    ensures forall j :: 0 <= j < 2 ==> trace[0][j].state == trace[|ds|][j].state == MASTER
  {
    hide Attends, AwaitedDeadline, Peers, Ip4Cmp, Delivered, Feasible, Complete;
    var n := MastersAt([[10, 0, 0, 1], [138, 0, 0, 1]]);
    var pairs := [(1, 0), (0, 1)];
    assert Feasible(n, pairs) by { FeasibleTwo(n); }
    trace, ds := RoundExists(n, 5, pairs);
    CompleteTwo(n, ds);
    HalfwayApart();
    assert !Beats(n[1], n[0]) && !Beats(n[0], n[1]);
    UnbeatenRemain(trace, ds, 0);
    UnbeatenRemain(trace, ds, 1);
  }

  lemma HalfwayApart()
    ensures Ip4Cmp([10, 0, 0, 1], [138, 0, 0, 1]) < 0 && Ip4Cmp([138, 0, 0, 1], [10, 0, 0, 1]) < 0
  {
    hide Value;
    Value4(10, 0, 0, 1);
    Value4(138, 0, 0, 1);
  }

  // ----- repeated addresses -----

  /** The same configuration with one address registered again and again. */
  function Repeating(c: Config): (a: Config)
    requires c.Valid()
    ensures a.Valid()
  {
    c.(vips := seq(|c.vips|, _ => c.vips[0]))
  }

  lemma RepeatingIsPeer(c: Config)
    requires c.Valid()
    ensures Peers(Repeating(c), c)
  {
    assert c.vips[0] in VipList.Elements(c.vips);
  }

  /**
   Every version 2 instance with two or more addresses accepts a packet that
   names only the first of them (`Receive.AcceptedAddresses` says which packets
   slip through in this way).
   */
  lemma RepeatedAddressAccepted(c: Config, prio: byte, p: byte) returns (d: Datagram)
    requires c.Valid() && c.version == 2 && |c.vips| >= 2 && VipList.Distinct(c.vips)
    requires c.advInt <= 255 && Fits(c) && prio != OWNER && p != OWNER
    ensures d.Valid() && Filter(c, prio, d) == PKT
    ensures var addrs := VipList.PacketAddrs(c.family, Payload(c, d), |c.vips|);
            && (forall k :: 0 <= k < |addrs| ==> addrs[k] == c.vips[0])
            && VipList.Elements(addrs) != VipList.Elements(c.vips)
  {
    hide Built, IpHeader, Filter, Stored, Delivers, Parse;
    var a := Repeating(c);
    var junk := Zeros(a.Size() - 8 - |a.vips| * AddrLen(a.family));
    var adv := Built(a, p, junk);
    d := Read(Frame(IpHeader(a), adv));
    RepeatingIsPeer(c);
    BuiltIsPrepared(a, p, junk);
    HeaderRead(a, c, adv, d);
    HeaderOctets(a, p, adv);
    RoundTrip(a, c, p, adv, prio, d, Received(c.addr, 0, 0, 0, 0));
    BuiltAddresses(a, p, junk);
    var addrs := VipList.PacketAddrs(c.family, adv, |c.vips|);
    assert addrs[0] == addrs[1];
    AcceptedAddresses(c, prio, d);
  }

  // ----- a stored checksum of all ones -----

  /** An advertisement of priority 200 whose sum is zero in ones' complement, with either form of that zero stored. */
  function Specimen(x: byte): (s: seq<byte>)
    ensures |s| == 20
  {
    [0x21, 1, 200, 1] + [0, 1, x, x] + [10, 0, 0, 254] + [0x0b, 0xfe, 0, 0] + [0, 0, 0, 0]
  }

  lemma WordSum4(a: byte, b: byte, c: byte, d: byte)
    ensures WordSum(Big, [a, b, c, d]) == Load16(Big, a, b) + Load16(Big, c, d)
  {
    var s: seq<byte>, t: seq<byte> := [a, b, c, d], [c, d];
    assert s[2..] == t && t[2..] == [];
    assert WordSum(Big, t) == Load16(Big, c, d);
  }

  lemma SpecimenSum(x: byte)
    ensures WordSum(Big, Specimen(x)) == ONES + 257 * x
  {
    hide WordSum;
    var s1: seq<byte>, s2: seq<byte>, s3: seq<byte>, s4: seq<byte>, s5: seq<byte> :=
      [0x21, 1, 200, 1], [0, 1, x, x], [10, 0, 0, 254], [0x0b, 0xfe, 0, 0], [0, 0, 0, 0];
    WordSum4(0x21, 1, 200, 1);
    WordSum4(0, 1, x, x);
    WordSum4(10, 0, 0, 254);
    WordSum4(0x0b, 0xfe, 0, 0);
    WordSum4(0, 0, 0, 0);
    WordSumConcat(Big, s1 + s2 + s3 + s4, s5);
    WordSumConcat(Big, s1 + s2 + s3, s4);
    WordSumConcat(Big, s1 + s2, s3);
    WordSumConcat(Big, s1, s2);
  }

  /** The specimen as router 10.0.0.1 reads it from 10.0.0.2. */
  function SpecimenRead(x: byte): (d: Datagram)
    ensures d.Valid()
  {
    Read(Frame(IpHeader(Site(Big, 2)), Specimen(x)))
  }

  lemma SpecimenVerifies(x: byte, src: seq<byte>, dst: seq<byte>)
    requires (x == 0 || x == 255) && |src| == |dst| == 4
    ensures Verifies(Site(Little, 1), Specimen(x), src, dst)
  {
    hide WordSum, OnesSum;
    SpecimenSum(x);
    OnesSumIsResidue(Big, Specimen(x));
    assert StandardPseudo(Site(Little, 1), src, dst) + Specimen(x) == Specimen(x);
  }

  lemma SpecimenParsed(x: byte)
    ensures var c, d := Site(Little, 1), SpecimenRead(x);
            && WellFramed(c, d) && Octets(c, d) == Payload(c, d) == Specimen(x)
            && VipList.PacketAddrs(V4, Specimen(x), 1) == [[10, 0, 0, 254]]
  {
    hide IpHeader, Delivers, Parse;
    var c, d := Site(Little, 1), SpecimenRead(x);
    HeaderRead(Site(Big, 2), c, Specimen(x), d);
    assert d.len == 40 by { SpecimenLength(x); }
    ParsedOctets(c, d);
    assert VipList.AddrAt(V4, Specimen(x), 0) == [10, 0, 0, 254];
  }

  lemma SpecimenLength(x: byte)
    ensures SpecimenRead(x).len == 40
  {
    hide IpHeader;
  }

  /**
   The two packets differ only in how zero is written in the checksum field.
   Both pass the standard's test; the daemon refuses the one that stores 0xffff
   (`Advert.RecomputationIsStandard`).
   */
  lemma OnesRefused()
    ensures var c, d0, d1 := Site(Little, 1), SpecimenRead(0), SpecimenRead(255);
            && Payload(c, d1) == PutWord(Payload(c, d0), 6, [0xff, 0xff])
            && Verifies(c, Payload(c, d0), Parse(V4, d0).src, Parse(V4, d0).dst)
            && Verifies(c, Payload(c, d1), Parse(V4, d1).src, Parse(V4, d1).dst)
            && Filter(c, 100, d0) == PKT && Filter(c, 100, d1) == INVALID
  {
    hide Filter, WellFramed, SpecimenRead, Parse, Payload, Verifies;
    var c := Site(Little, 1);
    forall x: byte | x == 0 || x == 255
      ensures Payload(c, SpecimenRead(x)) == Specimen(x)
      ensures Verifies(c, Specimen(x), Parse(V4, SpecimenRead(x)).src, Parse(V4, SpecimenRead(x)).dst)
      ensures Filter(c, 100, SpecimenRead(x)) == if x == 0 then PKT else INVALID
    {
      var h := Parse(V4, SpecimenRead(x));
      SpecimenParsed(x);
      SpecimenVerifies(x, h.src, h.dst);
      SpecimenFiltered(x);
    }
  }

  lemma SpecimenFiltered(x: byte)
    requires x == 0 || x == 255
    ensures Filter(Site(Little, 1), 100, SpecimenRead(x)) == if x == 0 then PKT else INVALID
  {
    hide Filter, WellFramed, SpecimenRead, Parse, Payload, Verifies, Octets, Source, Destination, NonZeroOr, Group,
         VipList.PacketAddrs;
    var c, d := Site(Little, 1), SpecimenRead(x);
    SpecimenParsed(x);
    SpecimenVerifies(x, NonZeroOr(V4, Source(c, d), c.addr), NonZeroOr(V4, Destination(c, d), Group(V4)));
    FilterExact(c, 100, d);
  }

  // ----- a foreign interval -----

  /** Version 3 on 10.0.0.`host`, with the given interval in centiseconds. */
  function Site3(host: byte, advInt: word): (c: Config)
    requires 1 <= advInt <= 4095
    ensures c.Valid()
  {
    Config(Little, 3, 1, advInt, 0, true, NoAuth, V4, [[10, 0, 0, 254]], [10, 0, 0, host], 1500)
  }

  /** A backup configured with 100 that reads a packet announcing 612 is rearmed by it and learns 612. */
  lemma LearnsForeign(s: Instance, t: Instance)
    requires Inv(s) && s.cfg == Site3(1, 100) && s.state == BACKUP && s.priority == 100
    requires Nanos(s.downTimer) > 2 * NANO
    requires Inv(t) && t.cfg == Site3(2, 612) && t.priority == 200
    ensures t.Valid() && |Announcement(t).ip| == 20 && |Announcement(t).adv| == 20
    ensures var i := Listening(t, 2);
            && Step(s, i).state == BACKUP && Step(s, i).masterAdvInt == 612
            && Step(s, i).downTimer == Deadline(Timespec(2, 0), 3, MasterdownInt(Step(s, i)))
            && Step(s, i).reg == s.reg
  {
    hide Prepared, IpHeader, PacketChecks, Filter, Stored, HooksOk, Delivers;
    AnnouncementSize(t);
    var d := Read(Announcement(t));
    var i := Listening(t, 2);
    assert d.len == 40;
    assert SameRouter(t.cfg, s.cfg);
    RoundTrip(t.cfg, s.cfg, t.priority, t.adv, s.priority, d, s.pkt);
    NotYet(s.downTimer, i.t0);
    NotYet(s.downTimer, i.t1);
    ListenSocket(s, i);
  }

  /**
   A run of an instance configured with 100 centiseconds that hears one packet
   of a router configured with 612 (the low octet is the same), then silence:
   it ends as master, announcing 100 and sending every 612.
   `Timed.IntervalOrigin` says exactly when this happens.
   */
  lemma ForeignInterval() returns (trace: seq<Instance>, inputs: seq<Input>)
    ensures IsTrace(trace, inputs) && |inputs| == 3 && |trace| == 4
    ensures inputs[1].wake.Ready? && inputs[1].wake.socket.Some?
    ensures Delivers(V4, Announcement(Start(Site3(2, 612), 200)), inputs[1].wake.socket.value)
    ensures var s := trace[3];
            && s.Valid() && s.state == MASTER && s.cfg == Site3(1, 100) && s.masterAdvInt == 612
            && AnnouncedUnits(s.cfg, s.adv) == 100 && s.advTimer == Deadline(Timespec(30, 0), 3, 612)
    ensures Inv(trace[2]) && trace[2].cfg == Site3(1, 100) && trace[2].priority == 100 && trace[2].state == BACKUP
    ensures trace[2].masterAdvInt == 612 && inputs[2] == At(30, QUIET) && Sends(trace[2], trace[3])
  {
    hide Built, IpHeader, Step, Prepared, HooksOk, PacketsOk, IntervalOk, Coupled, Announcement;
    var s0, s1 := Begins(Site3(1, 100), 100, 1);
    var t := Start(Site3(2, 612), 200);
    StartIsInitial(Site3(2, 612), 200);
    InitialInv(t);
    LearnsForeign(s1, t);
    var i := Listening(t, 2);
    var s2 := Step(s1, i);
    StepKeeps(s1, i);
    HarmlessKeepsPriority(s1, i);
    var s3 := Takes(s2, 30);
    trace, inputs := [s0, s1, s2, s3], [At(1, QUIET), i, At(30, QUIET)];
    InvPrepared(s3);
    HeaderOctets(s3.cfg, s3.priority, s3.adv);
  }

  lemma InvPrepared(s: Instance)
    requires Inv(s)
    ensures s.Valid() && Prepared(s.cfg, s.priority, s.adv)
  {
    hide Prepared;
  }

  /**
   What that does to a backup that misses nothing: reading an announcement in
   the instant it is sent, it is nevertheless due before the next one exactly
   when the sender had learned an interval that exceeds three announced ones
   and the backup's skew. An instance that comes from INIT has learned nothing.
   */
  lemma OvertakenOnTime(s: Instance, i: Input, t: Instance, j: Input)
    requires Inv(s) && RealSource(s.cfg) && i.Valid() && Step(s, i).state == MASTER && s.cfg.version == 3
    requires s.Valid() && Sends(s, Step(s, i))
    requires Attends(t) && t.state == BACKUP && t.priority != OWNER && Peers(s.cfg, t.cfg) && Hands(s, t, j)
    requires 1 <= s.priority && t.priority <= s.priority && j.t2 == i.t2
    ensures Step(t, j).state == BACKUP
    ensures Step(t, j).downTimer == Deadline(j.t2, 3, 3 * s.cfg.advInt + (256 - t.priority) * s.cfg.advInt / 256)
    ensures Nanos(Step(t, j).downTimer) < Nanos(Step(s, i).advTimer)
            <==> s.state != INIT && 3 * s.cfg.advInt + (256 - t.priority) * s.cfg.advInt / 256 < s.masterAdvInt
  {
    hide Prepared, IpHeader, Listen, Step, HooksOk, PacketsOk, IntervalOk, Delivers, Peers, Fits, RealSource, Beats,
         Learns, HighOctet;
    assert t.cfg.version == 3 by { SameVersion(s.cfg, t.cfg); }
    AnnouncingPass(s, i);
    HandedPacket(s, t, j);
    HandedStep(s, t, j);
    BackupPass(t, j);
    if s.state == INIT {
      InitPass(s, i);
    } else {
      IntervalPass(s, i);
      assert !Learns(s, i) by { TakeoverLearnsNothing(s, i); }
    }
  }

  lemma TakeoverLearnsNothing(s: Instance, i: Input)
    requires Inv(s) && i.Valid() && Step(s, i).state == MASTER
    ensures !Learns(s, i)
  {
    hide Inv, Step, OutcomeOf;
    InvValid(s);
    if s.state == BACKUP {
      BackupPass(s, i);
    }
  }

  lemma SameVersion(a: Config, b: Config)
    requires Peers(a, b)
    ensures a.version == b.version && a.advInt == b.advInt
  {
  }

  /**
   Such a run: the master of `ForeignInterval` announces itself at thirty
   seconds and is read at once by a backup configured like it; at thirty-five
   seconds the backup has taken over as well, more than a second before the
   master's next announcement is due. No packet was lost and nobody was late.
   */
  lemma TwoMastersOnTime()
    returns (trace: seq<Instance>, inputs: seq<Input>, other: seq<Instance>, heard: seq<Input>)
    ensures IsTrace(trace, inputs) && |trace| == 4 && trace[3].state == MASTER && trace[2].Valid()
    ensures IsTrace(other, heard) && |other| == 4 && other[2].state == BACKUP && other[3].state == MASTER
    ensures Peers(trace[3].cfg, other[3].cfg) && Sends(trace[2], trace[3])
    ensures Hands(trace[2], other[1], heard[1]) && heard[1].t2 == inputs[2].t2
    ensures Nanos(trace[3].advTimer) > Nanos(heard[2].t2) + NANO
  {
    hide Built, IpHeader, Step, Prepared, HooksOk, PacketsOk, IntervalOk, Coupled, Announcement, Peers, Hands, Beats,
         AwaitedDeadline, Fits, RealSource, Delivers;
    trace, inputs := ForeignInterval();
    var s := trace[2];
    var t0, t1 := Begins(Site3(3, 100), 50, 28);
    AnnouncementSize(s);
    var i := Listening(s, 30);
    BackupAwaits(t1);
    HandsAt(s, t1, 30);
    Sites3Agree();
    ListeningAt(s, 30);
    OvertakenOnTime(s, inputs[2], t1, i);
    HandedStep(s, t1, i);
    var t2 := Step(t1, i);
    StepKeeps(t1, i);
    assert TestBit(t2.reg, KEEP_GOING) by { BackupGoesOn(t2); }
    var t3 := Takes(t2, 35);
    other, heard := [t0, t1, t2, t3], [At(28, QUIET), i, At(35, QUIET)];
  }

  lemma BackupGoesOn(s: Instance)
    requires Inv(s) && s.state != INIT
    ensures TestBit(s.reg, KEEP_GOING)
  {
  }

  lemma Sites3Agree()
    ensures Peers(Site3(1, 100), Site3(3, 100)) && RealSource(Site3(1, 100)) && RealSource(Site3(3, 100))
    ensures Fits(Site3(3, 100))
  {
  }

  // ----- reserved bits -----

  /** The packet of an instance with the lowest reserved bit set, sealed again. */
  function WithReservedBit(c: Config, prio: byte): (p: seq<byte>)
    requires c.Valid()
    ensures |p| == c.Size()
  {
    Seal(c, Raw(c, prio, Zeros(c.Size() - 8 - |c.vips| * AddrLen(c.family)))[4 := 16])
  }

  lemma ReservedOctets(c: Config, prio: byte)
    requires c.Valid() && c.version == 3 && c.advInt <= 255
    ensures var p := WithReservedBit(c, prio);
            && p[0] / 16 == 3 && p[1] == c.vrid && p[2] == prio && p[4] == 16 && p[5] == c.advInt
            && Verifies(c, p, c.addr, Group(c.family)) && !(p[6] == p[7] == 0xff)
  {
    hide Verifies, Chksum, Raw, Group;
    var junk := Zeros(c.Size() - 8 - |c.vips| * AddrLen(c.family));
    RawHead(c, prio, junk);
    SealRecomputes(c, Raw(c, prio, junk)[4 := 16]);
    RecomputationIsStandard(c, WithReservedBit(c, prio), c.addr, Group(c.family));
  }

  lemma RawHead(c: Config, prio: byte, junk: seq<byte>)
    requires c.Valid() && c.version == 3 && c.advInt <= 255
    requires |junk| == c.Size() - 8 - |c.vips| * AddrLen(c.family)
    ensures var raw := Raw(c, prio, junk);
            raw[0] / 16 == 3 && raw[1] == c.vrid && raw[2] == prio && raw[5] == c.advInt
  {
    var raw, h := Raw(c, prio, junk), Header(c, prio);
    assert forall i :: 0 <= i < 6 ==> raw[i] == h[i];
  }

  /**
   Every version 3 instance with an interval up to 255 accepts an IPv4 packet
   that announces its own interval with a reserved bit set, and takes the bit
   for 4096 more (`Receive.AcceptanceMeans` says when this happens).
   */
  lemma ReservedBitLearned(c: Config, prio: byte, p: byte, r: Received) returns (d: Datagram)
    requires c.Valid() && c.version == 3 && c.family.V4? && c.advInt <= 255 && Fits(c) && RealSource(c)
    requires prio != OWNER
    ensures d.Valid() && Filter(c, prio, d) == PKT && Stored(c, prio, d, r).priority == p
    ensures MaxAdvInt(Payload(c, d)) == c.advInt && AdvIntOf(Stored(c, prio, d, r)) == 4096 + c.advInt
  {
    hide IpHeader, PacketChecks, Verifies, WithReservedBit, Parse, Payload, Delivers;
    var pkt := WithReservedBit(c, p);
    ReservedOctets(c, p);
    d := Read(Frame(IpHeader(c), pkt));
    HeaderRead(c, c, pkt, d);
    assert d.len == 20 + c.Size();
    ParsedOctets(c, d);
    FilterExact(c, prio, d);
  }
}
