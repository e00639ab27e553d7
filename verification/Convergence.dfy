/**
 From any set of simultaneous masters back to one.
 */
module Convergence {
  import opened Bytes
  import opened Address
  import opened Advert
  import opened Buffers
  import opened Receive
  import opened Timers
  import opened Machine
  import opened Runs
  import opened Election

  predicate Outranks(t: Instance, s: Instance) {
    t.priority > s.priority || (t.priority == s.priority && Value(t.cfg.addr) > Value(s.cfg.addr))
  }

  /** The packets of the virtual router are within this node's size limits. */
  predicate Fits(c: Config) {
    c.Size() + (if c.family.V4? then 20 else 0) <= c.mtu && (c.family.V6? ==> |c.vips| <= 64)
  }

  /** A running router that can accept its peers' packets, and be accepted by them. */
  predicate Attends(s: Instance) {
    Inv(s) && s.state != INIT && s.cfg.advInt <= 255 && Fits(s.cfg) && RealSource(s.cfg)
  }

  /** Running routers of one virtual router. */
  predicate RunningGroup(n: Net) {
    && (forall j :: 0 <= j < |n| ==> Attends(n[j]))
    && (forall i, j :: 0 <= i < |n| && 0 <= j < |n| && i != j ==> Peers(n[i].cfg, n[j].cfg))
  }

  /** Whether the announcement of `t` makes the master `s` step down: an owner never does. */
  predicate Beats(t: Instance, s: Instance)
    requires Peers(t.cfg, s.cfg)
  {
    && s.priority != OWNER && t.priority != 0
    && (t.priority > s.priority
        || (t.priority == s.priority && AddrCmp(s.cfg.family, t.cfg.addr, s.cfg.addr) > 0))
  }

  /** One announcement read by one router before its timer expires. */
  predicate Hands(t: Instance, s: Instance, i: Input)
    requires t.Valid()
  {
    && i.Valid() && i.wake.Ready? && i.wake.socket.Some?
    && Delivers(s.cfg.family, Announcement(t), i.wake.socket.value)
    && !Expired(AwaitedDeadline(s), i.t0) && !ExpiredCheck(AwaitedDeadline(s), i.t1)
  }

  lemma HandedPacket(t: Instance, s: Instance, i: Input)
    requires Inv(t) && RealSource(t.cfg) && Attends(s) && Peers(t.cfg, s.cfg) && Hands(t, s, i)
    ensures var l := Listen(s, i);
            if s.priority == OWNER then l.1 == INVALID && l.0 == s.(pkt := l.0.pkt)
            else l.1 == PKT && l.0 == s.(pkt := l.0.pkt) && l.0.pkt.versionType != 0
                 && l.0.pkt.priority == t.priority && l.0.pkt.src == t.cfg.addr
                 && AdvIntOf(l.0.pkt) == t.cfg.advInt
  {
    hide Prepared, IpHeader, PacketChecks, Filter, Stored, HooksOk, FrameOf;
    var d := i.wake.socket.value;
    RoundTrip(t.cfg, s.cfg, t.priority, t.adv, s.priority, d, s.pkt);
    ListenSocket(s, i);
    if s.priority != OWNER {
      AcceptanceMeans(s.cfg, s.priority, d, s.pkt);
    }
  }

  lemma ListenSocket(s: Instance, i: Input)
    requires s.Valid() && Coupled(s) && s.state != INIT && i.Valid() && i.wake.Ready? && i.wake.socket.Some?
    requires !Expired(AwaitedDeadline(s), i.t0) && !ExpiredCheck(AwaitedDeadline(s), i.t1)
    ensures var d := i.wake.socket.value;
            Listen(s, i) == (s.(pkt := Stored(s.cfg, s.priority, d, s.pkt)), Filter(s.cfg, s.priority, d))
  {
    hide Filter, Stored;
  }

  /**
   A backup that is handed a master's announcement stays backup; a master
   steps down exactly when the announcement beats it, and then waits for the
   announced interval, counted from now.
   */
  lemma HandedStep(t: Instance, s: Instance, i: Input)
    requires Inv(t) && RealSource(t.cfg) && Attends(s) && Peers(t.cfg, s.cfg) && Hands(t, s, i)
    ensures var r := Step(s, i);
            && Attends(r) && r.cfg == s.cfg && r.priority == s.priority
            && r.state == (if s.state == MASTER && !Beats(t, s) then MASTER else BACKUP)
            && (s.state == MASTER && r.state == BACKUP ==>
                  && (s.cfg.version == 3 ==> r.masterAdvInt == t.cfg.advInt)
                  && r.downTimer == Deadline(i.t2, s.cfg.version, 3 * t.cfg.advInt + SkewTime(r)))
  {
    hide Prepared, IpHeader, Listen, AdvIntOf, AddrCmp, FrameOf, HooksOk, Delivers;
    HandedPacket(t, s, i);
    StepKeeps(s, i);
  }

  // ----- rounds of delivery -----

  datatype Delivery = Delivery(sender: nat, receiver: nat, input: Input)

  /** Deliveries of the announcements that the masters of `trace[0]` had prepared, in any order. */
  predicate IsRound(trace: seq<Net>, ds: seq<Delivery>) {
    && |trace| == |ds| + 1 && RunningGroup(trace[0])
    && forall k :: 0 <= k < |ds| ==> Delivered(trace[0], trace[k], ds[k], trace[k + 1])
  }

  predicate Delivered(n0: Net, n: Net, d: Delivery, n': Net)
    requires RunningGroup(n0)
  {
    && d.sender < |n0| && d.receiver < |n| && d.sender != d.receiver
    && n0[d.sender].state == MASTER
    && Hands(n0[d.sender], n[d.receiver], d.input) && n[d.receiver].Valid()
    && n' == n[d.receiver := Step(n[d.receiver], d.input)]
  }

  predicate Reached(ds: seq<Delivery>, k: nat, from: nat, to: nat)
    requires k <= |ds|
  {
    exists t :: 0 <= t < k && ds[t].sender == from && ds[t].receiver == to
  }

  /** Every master's announcement has been read by every other router. */
  predicate Complete(n: Net, ds: seq<Delivery>) {
    forall i, j :: 0 <= i < |n| && 0 <= j < |n| && i != j && n[i].state == MASTER ==> Reached(ds, |ds|, i, j)
  }

  /** Delivery `d` beats router `j` of the group. */
  predicate BeatenBy(n: Net, d: Delivery, j: nat)
    requires RunningGroup(n) && j < |n|
  {
    d.receiver == j && d.sender < |n| && d.sender != j && Beats(n[d.sender], n[j])
  }

  /**
   After any deliveries, whatever the addresses and priorities: a router is
   master if and only if it was one and no announcement delivered to it beats
   it; every other router is a backup.
   */
  lemma {:induction false} RoundSettles(trace: seq<Net>, ds: seq<Delivery>, k: nat, j: nat)
    requires IsRound(trace, ds) && k <= |ds| && j < |trace[0]|
    ensures |trace[k]| == |trace[0]|
    ensures var s0, s := trace[0][j], trace[k][j];
            && Attends(s) && s.cfg == s0.cfg && s.priority == s0.priority
            && s.state == if s0.state == MASTER && !(exists t :: 0 <= t < k && BeatenBy(trace[0], ds[t], j))
                          then MASTER else BACKUP
  {
    hide Hands, Step, Inv, Fits, RealSource, Peers, AddrCmp;
    if k > 0 {
      RoundSettles(trace, ds, k - 1, j);
      var d, n0, n := ds[k - 1], trace[0], trace[k - 1];
      assert Delivered(n0, n, d, trace[k]);
      if d.receiver == j {
        assert Peers(n0[d.sender].cfg, n0[j].cfg) && Attends(n0[d.sender]);
        HandedStep(n0[d.sender], n[j], d.input);
      }
    }
  }

  /** A master that no other master beats. */
  predicate Unbeaten(n: Net, j: nat)
    requires RunningGroup(n) && j < |n|
  {
    n[j].state == MASTER
    && forall i :: 0 <= i < |n| && i != j && n[i].state == MASTER ==> !Beats(n[i], n[j])
  }

  /** A complete round leaves exactly the unbeaten masters. */
  lemma UnbeatenRemain(trace: seq<Net>, ds: seq<Delivery>, j: nat)
    requires IsRound(trace, ds) && Complete(trace[0], ds) && j < |trace[0]|
    ensures |trace[|ds|]| == |trace[0]|
    ensures trace[|ds|][j].state == if Unbeaten(trace[0], j) then MASTER else BACKUP
  {
    hide Hands, Step, Attends, Peers, Beats;
    var n0 := trace[0];
    RoundSettles(trace, ds, |ds|, j);
    if exists t :: 0 <= t < |ds| && BeatenBy(n0, ds[t], j) {
      var t :| 0 <= t < |ds| && BeatenBy(n0, ds[t], j);
      assert Delivered(n0, trace[t], ds[t], trace[t + 1]);
    } else {
      forall i | 0 <= i < |n0| && i != j && n0[i].state == MASTER
        ensures !Beats(n0[i], n0[j])
      {
        assert Reached(ds, |ds|, i, j);
        var t :| 0 <= t < |ds| && ds[t].sender == i && ds[t].receiver == j;
        assert !BeatenBy(n0, ds[t], j);
      }
    }
  }

  predicate MasterOnly(n: Net, top: nat) {
    top < |n| && forall j :: 0 <= j < |n| ==> n[j].state == if j == top then MASTER else BACKUP
  }

  predicate UnbeatenOnly(n: Net, top: nat)
    requires RunningGroup(n)
  {
    top < |n| && forall j :: 0 <= j < |n| ==> (Unbeaten(n, j) <==> j == top)
  }

  /**
   When a complete round converges: it leaves one master, `top`, if and only if
   `top` is the one master that no other beats.
   */
  lemma ConvergesExactly(trace: seq<Net>, ds: seq<Delivery>, top: nat)
    requires IsRound(trace, ds) && Complete(trace[0], ds)
    ensures MasterOnly(trace[|ds|], top) <==> UnbeatenOnly(trace[0], top)
  {
    hide Attends, Peers, Delivered, Unbeaten, Complete;
    RoundSize(trace, ds, |ds|);
    forall j: nat | j < |trace[0]|
      ensures trace[|ds|][j].state == if Unbeaten(trace[0], j) then MASTER else BACKUP
    {
      UnbeatenRemain(trace, ds, j);
    }
  }

  lemma {:induction false} RoundSize(trace: seq<Net>, ds: seq<Delivery>, k: nat)
    requires IsRound(trace, ds) && k <= |ds|
    ensures |trace[k]| == |trace[0]|
  {
    hide Attends, Peers, Hands, Step;
    if k > 0 {
      RoundSize(trace, ds, k - 1);
      assert Delivered(trace[0], trace[k - 1], ds[k - 1], trace[k]);
    }
  }

  // ----- addresses and priorities for which it always converges -----

  predicate Compatible(s: Instance, t: Instance) {
    && Peers(s.cfg, t.cfg) && Comparable(s.cfg.family, s.cfg.addr, t.cfg.addr)
    && Value(s.cfg.addr) != Value(t.cfg.addr)
    && !(s.priority == OWNER && t.priority == OWNER)
  }

  /** Running routers with distinct comparable addresses, and at most one address owner. */
  predicate RouterGroup(n: Net) {
    && RunningGroup(n) && (forall j :: 0 <= j < |n| ==> n[j].priority >= 1)
    && (forall i, j :: 0 <= i < |n| && 0 <= j < |n| && i != j ==> Compatible(n[i], n[j]))
  }

  /** `top` is a master and outranks every other one. */
  predicate Greatest(n: Net, top: nat) {
    && top < |n| && n[top].state == MASTER
    && forall j :: 0 <= j < |n| && j != top && n[j].state == MASTER ==> Outranks(n[top], n[j])
  }

  lemma BeatsIsOutranks(t: Instance, s: Instance)
    requires Compatible(t, s) && t.priority >= 1
    ensures Beats(t, s) <==> s.priority != OWNER && Outranks(t, s)
  {
    hide Value;
    AddrCmpIsOrder(s.cfg.family, t.cfg.addr, s.cfg.addr);
  }

  /** Among masters of distinct rank there is a greatest. */
  lemma {:induction false} FindGreatest(n: Net, m: nat, k: nat) returns (top: nat)
    requires RouterGroup(n) && m < |n| && n[m].state == MASTER && m < k <= |n|
    ensures top < k && n[top].state == MASTER
    ensures forall j :: 0 <= j < k && j != top && n[j].state == MASTER ==> Outranks(n[top], n[j])
    decreases k
  {
    hide Attends, Peers, Comparable;
    if k == m + 1 && forall j :: 0 <= j < m ==> n[j].state != MASTER {
      top := m;
    } else {
      var m' := m;
      if k == m + 1 {
        m' :| 0 <= m' < m && n[m'].state == MASTER;
      }
      top := FindGreatest(n, m', k - 1);
      if n[k - 1].state == MASTER {
        assert Compatible(n[top], n[k - 1]);
        if Outranks(n[k - 1], n[top]) {
          top := k - 1;
        }
      }
    }
  }

  /** The greatest master is the only one that no other beats. */
  lemma GreatestIsUnbeaten(n: Net, top: nat)
    requires RouterGroup(n) && Greatest(n, top)
    ensures UnbeatenOnly(n, top)
  {
    hide Attends, Peers, Beats, Value, Comparable;
    forall j | 0 <= j < |n|
      ensures Unbeaten(n, j) <==> j == top
    {
      forall i | 0 <= i < |n| && i != j
        ensures Beats(n[i], n[j]) <==> n[j].priority != OWNER && Outranks(n[i], n[j])
      {
        assert Compatible(n[i], n[j]);
        BeatsIsOutranks(n[i], n[j]);
      }
      if j != top && n[j].state == MASTER {
        assert Compatible(n[top], n[j]) && Outranks(n[top], n[j]);
      }
    }
  }

  /**
   From any non-empty set of simultaneous masters: once each master's
   announcement has been read by every other router, in any order, with any
   repetitions and with no timer running out meanwhile, exactly one master is
   left. It is the greatest of the set, and every other router is a backup.
   */
  lemma OneMasterRemains(trace: seq<Net>, ds: seq<Delivery>, m: nat) returns (top: nat)
    requires IsRound(trace, ds) && RouterGroup(trace[0]) && Complete(trace[0], ds)
    requires m < |trace[0]| && trace[0][m].state == MASTER
    ensures Greatest(trace[0], top)
    ensures |trace[|ds|]| == |trace[0]| && MasterOnly(trace[|ds|], top)
  {
    hide Attends, Compatible, Outranks, Complete, Delivered;
    top := FindGreatest(trace[0], m, |trace[0]|);
    GreatestIsUnbeaten(trace[0], top);
    ConvergesExactly(trace, ds, top);
    RoundSize(trace, ds, |ds|);
  }

  // ----- why the conditions are there -----

  /** An address owner drops whatever it is sent: two owners would both stay master. */
  lemma OwnerNeverYields(s: Instance, i: Input)
    requires Inv(s) && i.Valid() && s.state == MASTER && s.priority == OWNER && Harmless(i)
    ensures Step(s, i).state == MASTER
  {
    hide Prepared, IpHeader, Listen, MasterOn, Harmless, FrameOf, HooksOk;
    ListenHeard(s, i);
    HarmlessListen(s, i);
    MasterOnStays(Listen(s, i).0, Listen(s, i).1, i.t2);
  }

  /** Of equal priority, a master steps down exactly when the comparison puts the sender's address above its own. */
  lemma HandedTie(t: Instance, s: Instance, i: Input)
    requires Attends(t) && Attends(s) && Peers(t.cfg, s.cfg) && Hands(t, s, i)
    requires s.state == MASTER && 0 < s.priority == t.priority < OWNER
    ensures Step(s, i).state == if AddrCmp(s.cfg.family, t.cfg.addr, s.cfg.addr) > 0 then BACKUP else MASTER
  {
    hide Attends, Hands, Step, AddrCmp;
    assert Inv(t) && RealSource(t.cfg) by { AttendsMeans(t); }
    HandedStep(t, s, i);
  }

  lemma AttendsMeans(s: Instance)
    requires Attends(s)
    ensures Inv(s) && RealSource(s.cfg)
  {
  }

  /**
   Two masters of equal priority that are handed each other's announcement:
   exactly one of them steps down, unless the addresses are equal or, in IPv4,
   exactly half the address space apart, and then both stay. The one that stays
   is the greater number exactly when IPv4 addresses are less than half the
   address space apart.
   */
  lemma TieBreakExact(s: Instance, t: Instance, i: Input, j: Input)
    requires Attends(s) && Attends(t) && Peers(s.cfg, t.cfg) && Peers(t.cfg, s.cfg)
    requires s.state == t.state == MASTER && 0 < s.priority == t.priority < OWNER
    requires Hands(t, s, i) && Hands(s, t, j)
    ensures var a, b, r, q := Value(s.cfg.addr), Value(t.cfg.addr), Step(s, i).state, Step(t, j).state;
            && ((r == BACKUP) != (q == BACKUP) <==> a != b && (s.cfg.family.V4? ==> a - b != TWO31 && b - a != TWO31))
            && ((r == BACKUP) == (q == BACKUP) ==> r == q == MASTER)
            && ((r == BACKUP <==> b > a) && (q == BACKUP <==> a > b)
                <==> (s.cfg.family.V4? ==> -TWO31 < a - b < TWO31))
  {
    hide Attends, Hands, Step, Value, Peers;
    HandedTie(t, s, i);
    HandedTie(s, t, j);
    assert s.cfg.family == t.cfg.family && |s.cfg.addr| == |t.cfg.addr| == AddrLen(s.cfg.family) by {
      SameFamily(s.cfg, t.cfg);
    }
    TieOfAddresses(s.cfg.family, s.cfg.addr, t.cfg.addr);
  }

  lemma SameFamily(a: Config, b: Config)
    requires Peers(a, b)
    ensures a.family == b.family && |a.addr| == |b.addr| == AddrLen(a.family)
  {
  }

  lemma TieOfAddresses(f: Family, x: seq<byte>, y: seq<byte>)
    requires |x| == |y| == AddrLen(f)
    ensures var a, b, up, down := Value(x), Value(y), AddrCmp(f, y, x) > 0, AddrCmp(f, x, y) > 0;
            && (up != down <==> a != b && (f.V4? ==> a - b != TWO31 && b - a != TWO31))
            && !(up && down)
            && ((up <==> b > a) && (down <==> a > b) <==> (f.V4? ==> -TWO31 < a - b < TWO31))
  {
    hide Value;
    if f.V4? {
      ValueBound4(x);
      ValueBound4(y);
      Ip4CmpExact(x, y);
      Ip4CmpExact(y, x);
    } else {
      MemcmpIsOrder(x, y);
      MemcmpIsOrder(y, x);
    }
  }
}
