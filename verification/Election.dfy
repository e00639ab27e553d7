/**
 Several instances on one link. Every node runs `Machine.Step`; what a node may
 receive is any frame that some node has sent so far, any number of times and
 at any later moment, so the link may lose, delay, duplicate and reorder.
 */
module Election {
  import opened Bytes
  import opened Address
  import opened Advert
  import opened Buffers
  import opened Receive
  import opened Timers
  import opened Machine
  import opened Runs

  type Net = seq<Instance>

  datatype Action = Action(node: nat, input: Input)

  /** Frame `k` of node `j` arrives as `d` on a socket of family `f`. */
  predicate Arrives(n: Net, f: Family, d: Datagram, j: nat, k: nat) {
    j < |n| && k < |n[j].sent| && Delivers(f, n[j].sent[k], d)
  }

  /** The node is up, and what it reads from its socket was sent by some node. */
  ghost predicate Enabled(n: Net, a: Action) {
    && a.node < |n| && n[a.node].Valid() && a.input.Valid() && TestBit(n[a.node].reg, KEEP_GOING)
    && (a.input.wake.Ready? && a.input.wake.socket.Some? ==>
          exists j: nat, k: nat :: Arrives(n, n[a.node].cfg.family, a.input.wake.socket.value, j, k))
  }

  function Act(n: Net, a: Action): (n': Net)
    requires Enabled(n, a)
    ensures |n'| == |n|
  {
    n[a.node := Step(n[a.node], a.input)]
  }

  // ----- what a packet says about its sender -----

  /** Whoever receives a frame reads its sender's address, and the priority it was built with. */
  lemma PacketTiedToSender(a: Config, b: Config, f: Frame, d: Datagram)
    requires a.Valid() && b.Valid() && a.family == b.family && FrameOf(a, f) && Delivers(b.family, f, d)
    ensures Parse(b.family, d).src == a.addr && Payload(b, d)[2] == f.adv[2] && Payload(b, d)[4] == f.adv[4]
  {
    hide Prepared, IpHeader;
    if a.family.V4? {
      HeaderRead4(a, f.adv, d);
      assert d.buf[22] == d.buf[20..20 + |f.adv|][2] && d.buf[24] == d.buf[20..20 + |f.adv|][4];
    } else {
      Ip6Octets(a);
      assert d.buf[2] == d.buf[..d.len][2] && d.buf[4] == d.buf[..d.len][4];
    }
  }

  // ----- what a step does to a node's priority and to the wire -----

  /** The priority that a well-formed `prio` command asks for. */
  function Requested(i: Input): Option<byte> {
    if i.wake.Ready? && i.wake.fifo.Some? && i.wake.fifo.value.Command?
       && |i.wake.fifo.value.words| == 2 && i.wake.fifo.value.words[0] == "prio"
       && i.wake.fifo.value.argument.Number?
    then Some(i.wake.fifo.value.argument.value)
    else None
  }

  /** A pass sends at most one frame, of priority 0 or of the priority in force when it began. */
  predicate Emits(s: Instance, r: Instance) {
    r.sent == s.sent
    || (|r.sent| == |s.sent| + 1 && r.sent[..|s.sent|] == s.sent
        && |r.sent[|s.sent|].adv| == s.cfg.Size()
        && (r.sent[|s.sent|].adv[2] == 0 || r.sent[|s.sent|].adv[2] == s.priority))
  }

  lemma ListenPriority(s: Instance, i: Input)
    requires s.Valid() && i.Valid()
    ensures var l := Listen(s, i);
            && l.0.sent == s.sent
            && (l.0.priority == s.priority || Requested(i) == Some(l.0.priority))
            && (l.1 == TIMER || l.1 == PKT ==> l.0.priority == s.priority && l.0.adv == s.adv)
  {
    hide Filter, Stored, Seal, HandleSignals, Prepared, Acceptable, WellFramed;
    if i.wake.Ready? && i.wake.socket.Some? {
      FilterExact(s.cfg, s.priority, i.wake.socket.value);
    }
  }

  lemma InitEmits(s: Instance, now: Timespec)
    requires s.Valid() && Prepared(s.cfg, s.priority, s.adv)
    ensures Emits(s, InitStep(s, now)) && InitStep(s, now).priority == s.priority
  {
    hide Prepared, IpHeader;
    AdvertOk(s);
  }

  lemma BackupEmits(s: Instance, ev: Event, now: Timespec)
    requires s.Valid() && Prepared(s.cfg, s.priority, s.adv)
    ensures Emits(s, BackupOn(s, ev, now)) && BackupOn(s, ev, now).priority == s.priority
    ensures ev != TIMER ==> BackupOn(s, ev, now).sent == s.sent
  {
    hide Prepared, IpHeader, SkewTime, MasterdownInt, AdvIntOf;
    AdvertOk(s);
  }

  lemma MasterEmits(s: Instance, ev: Event, now: Timespec)
    requires s.Valid() && Prepared(s.cfg, s.priority, s.adv)
    ensures var r := MasterOn(s, ev, now);
            && r.priority == s.priority && Emits(s, r)
            && (ev != TIMER && ev != PKT ==>
                  r.sent == s.sent || (|r.sent| == |s.sent| + 1 && r.sent[|s.sent|].adv[2] == 0))
  {
    hide Prepared, IpHeader, SkewTime, MasterdownInt, AdvIntOf, AddrCmp, ZeroAdvert;
    AdvertOk(s);
    ZeroAdvertOk(s.(reg := ClearBit(s.reg, RELOAD), advTimer := ZERO));
  }

  lemma StepEmits(s: Instance, i: Input)
    requires Inv(s) && i.Valid()
    ensures Emits(s, Step(s, i))
    ensures Step(s, i).priority == s.priority || Requested(i) == Some(Step(s, i).priority)
  {
    hide Prepared, FrameOf, InitStep, BackupOn, MasterOn, Listen, Requested, Coupled, HooksOk, IntervalOk;
    if s.state == INIT {
      InitEmits(s, i.t2);
    } else {
      ListenHeard(s, i);
      ListenPriority(s, i);
      var l := Listen(s, i);
      BackupEmits(l.0, l.1, i.t2);
      MasterEmits(l.0, l.1, i.t2);
    }
  }

  // ----- the stable leader -----

  /** A claim of priority `prio` from `addr` that does not unseat a master (`p`, `own`). */
  predicate NotAbove(prio: byte, addr: seq<byte>, p: byte, own: seq<byte>) {
    prio == 0 || prio < p || (prio == p && Value(addr) <= Value(own))
  }

  /** A node that is below the leader, as is everything it ever sent. */
  predicate Below(s: Instance, lead: Config, p: byte) {
    && Inv(s) && s.cfg.family == lead.family && Comparable(lead.family, s.cfg.addr, lead.addr)
    && NotAbove(s.priority, s.cfg.addr, p, lead.addr)
    && forall k :: 0 <= k < |s.sent| ==>
         |s.sent[k].adv| == s.cfg.Size() && NotAbove(s.sent[k].adv[2], s.cfg.addr, p, lead.addr)
  }

  lemma StepKeepsBelow(s: Instance, i: Input, lead: Config, p: byte)
    requires Below(s, lead, p) && i.Valid() && TestBit(s.reg, KEEP_GOING)
    requires Requested(i).Some? ==> NotAbove(Requested(i).value, s.cfg.addr, p, lead.addr)
    ensures Below(Step(s, i), lead, p)
  {
    hide Inv, Requested, Value, Comparable, Step;
    assert s.Valid() by { InvValid(s); }
    StepKeeps(s, i);
    StepEmits(s, i);
    var r := Step(s, i);
    forall k | 0 <= k < |r.sent|
      ensures |r.sent[k].adv| == s.cfg.Size() && NotAbove(r.sent[k].adv[2], s.cfg.addr, p, lead.addr)
    {
      if k < |s.sent| {
        assert r.sent[k] == s.sent[k];
      }
    }
  }

  lemma InvValid(s: Instance)
    ensures Inv(s) ==> s.Valid()
  {
  }

  /** Nothing that makes the instance go back to INIT. */
  predicate Harmless(i: Input) {
    match i.wake
    case Signals(sigs) => SigHup !in sigs && SigTerm !in sigs
    case SelectError => true
    case Ready(socket, fifo) =>
      fifo.Some? && fifo.value.Command? && fifo.value.words != [] ==>
        && fifo.value.words[0] != "stop" && fifo.value.words[0] != "reload"
        && (fifo.value.words[0] == "prio" ==> |fifo.value.words| != 2 || !fifo.value.argument.Number?)
  }

  lemma HarmlessListen(s: Instance, i: Input)
    requires s.Valid() && i.Valid() && Harmless(i) && !TestBit(s.reg, RELOAD)
    ensures !TestBit(Listen(s, i).0.reg, RELOAD) && Listen(s, i).0.priority == s.priority
  {
    hide Filter, Stored, Seal, HandleSignals;
    if i.wake.Signals? {
      SignalFlags(s.reg, i.wake.sigs);
    }
  }

  lemma MasterOnStays(s: Instance, ev: Event, now: Timespec)
    requires s.Valid() && s.state == MASTER && !TestBit(s.reg, RELOAD)
    requires ev == PKT ==> Comparable(s.cfg.family, s.pkt.src, s.cfg.addr)
                           && NotAbove(s.pkt.priority, s.pkt.src, s.priority, s.cfg.addr)
    ensures MasterOn(s, ev, now).state == MASTER
  {
    hide IpHeader, GotoBackup, AddrCmp, Comparable;
    if ev == PKT {
      AddrCmpIsOrder(s.cfg.family, s.pkt.src, s.cfg.addr);
    }
  }

  /** What the leader may read from its socket. */
  ghost predicate ReadsBelow(s: Instance, i: Input) {
    i.wake.Ready? && i.wake.socket.Some? ==>
      exists t: Instance, k :: Below(t, s.cfg, s.priority) && 0 <= k < |t.sent|
                               && Delivers(s.cfg.family, t.sent[k], i.wake.socket.value)
  }

  lemma LeaderHears(s: Instance, i: Input)
    requires Inv(s) && i.Valid() && s.state == MASTER && ReadsBelow(s, i) && Listen(s, i).1 == PKT
    ensures var l := Listen(s, i).0;
            Comparable(s.cfg.family, l.pkt.src, s.cfg.addr)
            && NotAbove(l.pkt.priority, l.pkt.src, s.priority, s.cfg.addr)
  {
    hide Prepared, IpHeader, PacketChecks, Comparable, NotAbove, HandleSignals, Inv;
    assert s.Valid() by { InvValid(s); }
    ListenPacket(s, i);
    var d := i.wake.socket.value;
    var t: Instance, k :| Below(t, s.cfg, s.priority) && 0 <= k < |t.sent| && Delivers(s.cfg.family, t.sent[k], d);
    assert FrameOf(t.cfg, t.sent[k]) && t.cfg.Valid() by { InvFrame(t, k); }
    PacketTiedToSender(t.cfg, s.cfg, t.sent[k], d);
  }

  lemma InvFrame(s: Instance, k: nat)
    requires Inv(s) && k < |s.sent|
    ensures s.cfg.Valid() && FrameOf(s.cfg, s.sent[k])
  {
  }

  /** A packet event comes from the socket, and the fields read are those of the datagram. */
  lemma ListenPacket(s: Instance, i: Input)
    requires s.Valid() && i.Valid() && Listen(s, i).1 == PKT
    ensures i.wake.Ready? && i.wake.socket.Some? && Filter(s.cfg, s.priority, i.wake.socket.value) == PKT
    ensures var d, l := i.wake.socket.value, Listen(s, i).0;
            l == s.(pkt := l.pkt)
            && l.pkt.src == Parse(s.cfg.family, d).src && l.pkt.priority == Payload(s.cfg, d)[2]
  {
    hide PacketChecks, HandleSignals, Seal;
  }

  lemma LeaderStays(s: Instance, i: Input)
    requires Inv(s) && i.Valid() && s.state == MASTER && Harmless(i) && ReadsBelow(s, i)
    ensures Step(s, i).state == MASTER
  {
    hide Prepared, IpHeader, Listen, MasterOn, Harmless, ReadsBelow, Comparable, NotAbove, FrameOf, HooksOk;
    ListenHeard(s, i);
    HarmlessListen(s, i);
    if Listen(s, i).1 == PKT {
      LeaderHears(s, i);
    }
    MasterOnStays(Listen(s, i).0, Listen(s, i).1, i.t2);
  }

  /** Commands never lift a router above the leader, nor change the leader's priority. */
  ghost predicate Obeys(n: Net, l: nat, p: byte, a: Action) {
    && Enabled(n, a) && l < |n|
    && (Requested(a.input).Some? ==>
          && NotAbove(Requested(a.input).value, n[a.node].cfg.addr, p, n[l].cfg.addr)
          && (a.node == l ==> Requested(a.input).value == p))
  }

  ghost predicate IsRun(trace: seq<Net>, actions: seq<Action>, l: nat, p: byte) {
    && |trace| == |actions| + 1
    && forall k :: 0 <= k < |actions| ==> Obeys(trace[k], l, p, actions[k]) && trace[k + 1] == Act(trace[k], actions[k])
  }

  predicate Led(n: Net, l: nat, p: byte) {
    l < |n| && n[l].priority == p && forall j :: 0 <= j < |n| ==> Below(n[j], n[l].cfg, p)
  }

  lemma ActKeepsLed(n: Net, a: Action, l: nat, p: byte)
    requires Led(n, l, p) && Obeys(n, l, p, a)
    ensures Led(Act(n, a), l, p)
  {
    hide Below, Step, Requested, NotAbove, Arrives;
    assert Inv(n[a.node]) by { BelowInv(n[a.node], n[l].cfg, p); }
    StepKeepsBelow(n[a.node], a.input, n[l].cfg, p);
    StepEmits(n[a.node], a.input);
  }

  lemma BelowInv(s: Instance, lead: Config, p: byte)
    ensures Below(s, lead, p) ==> Inv(s)
  {
  }

  lemma ActKeepsLeader(n: Net, a: Action, l: nat, p: byte)
    requires Led(n, l, p) && Obeys(n, l, p, a) && n[l].state == MASTER
    requires a.node == l ==> Harmless(a.input)
    ensures Act(n, a)[l].state == MASTER
  {
    hide Below, Step, Requested, NotAbove, Harmless, Delivers;
    if a.node == l {
      assert Inv(n[l]) by { BelowInv(n[l], n[l].cfg, p); }
      if a.input.wake.Ready? && a.input.wake.socket.Some? {
        var j: nat, k: nat :| Arrives(n, n[l].cfg.family, a.input.wake.socket.value, j, k);
        assert Below(n[j], n[l].cfg, n[l].priority);
      }
      LeaderStays(n[l], a.input);
    }
  }

  /** All routers at start; the leader outranks the others, and addresses are comparable with its own. */
  predicate InitialNet(n: Net, l: nat, p: byte) {
    && l < |n| && n[l].priority == p
    && forall j :: 0 <= j < |n| ==>
         && Initial(n[j]) && n[j].cfg.family == n[l].cfg.family
         && Comparable(n[l].cfg.family, n[j].cfg.addr, n[l].cfg.addr)
         && NotAbove(n[j].priority, n[j].cfg.addr, p, n[l].cfg.addr)
  }

  lemma InitialIsLed(n: Net, l: nat, p: byte)
    requires InitialNet(n, l, p)
    ensures Led(n, l, p)
  {
    hide Comparable, NotAbove, Prepared;
    forall j | 0 <= j < |n|
      ensures Below(n[j], n[l].cfg, p)
    {
      InitialInv(n[j]);
    }
  }

  lemma {:induction false} RunIsLed(trace: seq<Net>, actions: seq<Action>, l: nat, p: byte, k: nat)
    requires IsRun(trace, actions, l, p) && Led(trace[0], l, p) && k < |trace|
    ensures Led(trace[k], l, p)
  {
    hide Led, Obeys;
    if k > 0 {
      RunIsLed(trace, actions, l, p, k - 1);
      ActKeepsLed(trace[k - 1], actions[k - 1], l, p);
    }
  }

  /** A leader that is master stays so, from any state of the network that it leads. */
  lemma {:induction false} LeaderLasts(trace: seq<Net>, actions: seq<Action>, l: nat, p: byte, k: nat, m: nat)
    requires IsRun(trace, actions, l, p) && Led(trace[0], l, p)
    requires k <= m < |trace| && l < |trace[k]| && trace[k][l].state == MASTER
    requires forall t :: k <= t < |actions| && actions[t].node == l ==> Harmless(actions[t].input)
    ensures l < |trace[m]| && trace[m][l].state == MASTER
    decreases m - k
  {
    hide Harmless, Led, Enabled, Requested, Step;
    if k < m {
      RunIsLed(trace, actions, l, p, m - 1);
      LeaderLasts(trace, actions, l, p, k, m - 1);
      ActKeepsLeader(trace[m - 1], actions[m - 1], l, p);
    }
  }

  /**
   Once the router of greatest priority and address is master, it stays master
   in every continuation in which it is not itself reloaded -- whatever the
   others do, and whatever the link does to the packets.
   */
  lemma StableLeader(trace: seq<Net>, actions: seq<Action>, l: nat, p: byte, k: nat, m: nat)
    requires IsRun(trace, actions, l, p) && InitialNet(trace[0], l, p)
    requires k <= m < |trace| && l < |trace[k]| && trace[k][l].state == MASTER
    requires forall t :: k <= t < |actions| && actions[t].node == l ==> Harmless(actions[t].input)
    ensures l < |trace[m]| && trace[m][l].state == MASTER
  {
    hide Harmless, Led, Obeys, InitialNet;
    InitialIsLed(trace[0], l, p);
    LeaderLasts(trace, actions, l, p, k, m);
  }
}
