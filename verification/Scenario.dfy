/**
 Concrete runs of two routers that meet the premises of the theorems about
 networks -- leadership, service and succession on one run, convergence on a
 round with two masters: they are not true for want of instances.
 */
module Scenario {
  import opened Bytes
  import opened Address
  import opened Advert
  import opened Buffers
  import opened Receive
  import opened Timers
  import opened Machine
  import opened Runs
  import opened Lifetime
  import opened Timed
  import opened Election
  import opened Convergence
  import opened Exclusion
  import opened Service
  import opened Handover

  /** Version 2, one virtual address, one second between advertisements. */
  function SiteAt(e: Endian, addr: seq<byte>): (c: Config)
    requires |addr| == 4
    ensures c.Valid()
  {
    Config(e, 2, 1, 1, 0, true, NoAuth, V4, [[10, 0, 0, 254]], addr, 1500)
  }

  /** The same on 10.0.0.`host`. */
  function Site(e: Endian, host: byte): (c: Config)
    ensures c.Valid()
  {
    SiteAt(e, [10, 0, 0, host])
  }

  function Start(c: Config, prio: byte): (s: Instance)
    requires c.Valid()
  {
    Instance(c, INIT, prio, 0, ZERO, ZERO, {KEEP_GOING}, Received(Zeros(AddrLen(c.family)), 0, 0, 0, 0),
             Built(c, prio, Zeros(c.Size() - 8 - |c.vips| * AddrLen(c.family))), [], [], false)
  }

  lemma StartIsInitial(c: Config, prio: byte)
    requires c.Valid()
    ensures Initial(Start(c, prio))
  {
    hide Built;
    BuiltIsPrepared(c, prio, Zeros(c.Size() - 8 - |c.vips| * AddrLen(c.family)));
  }

  /** A pass at `sec` seconds in which `wake` happens. */
  function At(sec: nat, wake: Wake): (i: Input)
    requires sec > 0
    requires wake.Ready? && wake.socket.Some? ==> wake.socket.value.Valid()
    ensures i.Valid()
  {
    Input(Timespec(sec, 0), wake, Timespec(sec, 0), Timespec(sec, 0))
  }

  function Read(f: Frame): (d: Datagram)
    requires |f.ip| == 20 && |f.adv| <= 1036
    ensures d.Valid() && Delivers(V4, f, d)
  {
    var all := f.ip + f.adv;
    var d := Datagram(all + Zeros(IP_MAXPACKET - |all|), |all|, Zeros(16), Zeros(16), 0);
    assert d.buf[..d.len] == all;
    d
  }

  const QUIET := Ready(None, None)

  /** The running instance after its first pass at `sec`. */
  lemma Begins(c: Config, prio: byte, sec: nat) returns (s0: Instance, s1: Instance)
    requires c.Valid() && c.startDelay == 0 && 0 < prio < OWNER && sec > 0
    ensures s0 == Start(c, prio) && Initial(s0) && s1 == Step(s0, At(sec, QUIET))
    ensures Inv(s1) && s1.cfg == c && s1.state == BACKUP && s1.priority == prio && s1.sent == []
    ensures s1.masterAdvInt == c.advInt && s1.downTimer == Deadline(Timespec(sec, 0), c.version, MasterdownInt(s1))
    ensures c.version == 2 ==> s1.downTimer == Timespec(sec + 3 * c.advInt, 0)
    ensures TestBit(s1.reg, KEEP_GOING)
  {
    hide Built, IpHeader, Step, Prepared, Coupled, HooksOk, PacketsOk, IntervalOk, Requested, SkewTime;
    s0 := Start(c, prio);
    StartIsInitial(c, prio);
    InitialInv(s0);
    s1 := Step(s0, At(sec, QUIET));
    InitPass(s0, At(sec, QUIET));
    StepKeeps(s0, At(sec, QUIET));
    StepEmits(s0, At(sec, QUIET));
    QuietAsksNothing(sec);
    SkewBounds(s1);
  }

  /** A backup that makes a quiet pass after its deadline announces itself and is master. */
  lemma Takes(s: Instance, sec: nat) returns (r: Instance)
    requires Inv(s) && s.state == BACKUP && TestBit(s.reg, KEEP_GOING)
    requires sec > 0 && Nanos(s.downTimer) < sec * NANO
    ensures r == Step(s, At(sec, QUIET)) && Inv(r) && r.cfg == s.cfg && r.state == MASTER && r.priority == s.priority
    ensures s.Valid() && r.sent == s.sent + [Announcement(s)] && r.masterAdvInt == s.masterAdvInt
    ensures r.advTimer == Deadline(Timespec(sec, 0), s.cfg.version, AdvertUnits(s))
    ensures Announcement(r) == Announcement(s) && TestBit(r.reg, KEEP_GOING)
  {
    hide IpHeader, Prepared, HooksOk, PacketsOk, IntervalOk, Deadline;
    r := Step(s, At(sec, QUIET));
    BackupPass(s, At(sec, QUIET));
    StepKeeps(s, At(sec, QUIET));
  }

  lemma QuietAsksNothing(sec: nat)
    requires sec > 0
    ensures Requested(At(sec, QUIET)) == None
  {
  }

  /** The two configurations belong to one virtual router. */
  lemma SitesAgree()
    ensures Peers(Site(Little, 2), Site(Big, 1)) && Peers(Site(Big, 1), Site(Little, 2))
    ensures Peers(Site(Little, 2), Site(Little, 2)) && Peers(Site(Big, 1), Site(Big, 1))
    ensures Fits(Site(Big, 1)) && Fits(Site(Little, 2)) && RealSource(Site(Big, 1)) && RealSource(Site(Little, 2))
    ensures Value(Site(Big, 1).addr) + 1 == Value(Site(Little, 2).addr)
    ensures Comparable(V4, Site(Big, 1).addr, Site(Little, 2).addr)
    ensures Comparable(V4, Site(Little, 2).addr, Site(Big, 1).addr)
    ensures Comparable(V4, Site(Little, 2).addr, Site(Little, 2).addr)
  {
    Value4(10, 0, 0, 1);
    Value4(10, 0, 0, 2);
  }

  /** A backup of lower priority that reads the announcement is rearmed by it. */
  lemma Hears(t: Instance, s: Instance, f: Frame)
    requires Inv(t) && t.cfg == Site(Little, 2) && t.state == BACKUP && t.priority == 200 && f == Announcement(t)
    requires Inv(s) && s.cfg == Site(Big, 1) && s.state == BACKUP && s.priority == 100
    requires s.downTimer == Timespec(6, 0) && s.masterAdvInt == 1 && s.sent == []
    ensures |f.ip| == 20 && |f.adv| <= 1036
    ensures OutcomeOf(s, At(5, Ready(Some(Read(f)), None))) == Rearmed
    ensures Reheard(Step(s, At(5, Ready(Some(Read(f)), None))))
  {
    hide Built, IpHeader, Prepared, Listen, HooksOk, PacketsOk, IntervalOk, Delivers, Peers, Comparable, Fits;
    SitesAgree();
    var i := At(5, Ready(Some(Read(f)), None));
    HandedPacket(t, s, i);
    HandedStep(t, s, i);
    BackupPass(s, i);
    SkewBounds(Step(s, i));
    assert Requested(i) == None by { HearingAsksNothing(Read(f)); }
    StepEmits(s, i);
  }

  /**
   Router 10.0.0.1 (priority 100, big-endian) waits; router 10.0.0.2
   (priority 200, little-endian) takes over at five seconds and is heard.
   */
  lemma TwoRouters() returns (trace: seq<Net>, actions: seq<Action>, last: seq<int>)
    ensures IsRun(trace, actions, 1, 200) && InitialNet(trace[0], 1, 200) && |actions| == 4
    ensures |trace[3]| == 2 && trace[3][1].state == MASTER && AllFed(trace[3], 1, actions[3..4], last)
    ensures forall t :: 3 <= t < |actions| && actions[t].node == 1 ==> Harmless(actions[t].input)
    ensures |trace[0]| == |trace[2]| == 2 && trace[0][0].cfg == Site(Big, 1) && trace[0][1].cfg == Site(Little, 2)
    ensures Pending(trace[2], trace[3]) && trace[2][1].Valid() && |trace[4]| == 2 && Reheard(trace[4][0])
    ensures actions[2] == Action(1, At(5, QUIET)) && Overhears(trace[2][1], actions[3])
  {
    hide Built, IpHeader, Step, Listen, Prepared, Coupled, HooksOk, PacketsOk,
         IntervalOk, OutcomeOf, Requested, Delivers, Value, Comparable, Peers;
    SitesAgree();
    var a0, a1 := Begins(Site(Big, 1), 100, 3);
    var b0, b1 := Begins(Site(Little, 2), 200, 1);
    var b2 := Takes(b1, 5);
    QuietAsksNothing(1);
    QuietAsksNothing(3);
    QuietAsksNothing(5);

    var f := Announcement(b1);
    Hears(b1, a1, f);
    var i3 := At(5, Ready(Some(Read(f)), None));
    assert Requested(i3) == None by { HearingAsksNothing(Read(f)); }

    trace := [[a0, b0], [a1, b0], [a1, b1], [a1, b2], [Step(a1, i3), b2]];
    actions := [Action(0, At(3, QUIET)), Action(1, At(1, QUIET)), Action(1, At(5, QUIET)), Action(0, i3)];
    last := [3 * NANO, 0];
    assert Arrives(trace[3], V4, Read(f), 1, 0);
    assert Obeys(trace[0], 1, 200, actions[0]) && Obeys(trace[1], 1, 200, actions[1]);
    assert Obeys(trace[2], 1, 200, actions[2]) && Obeys(trace[3], 1, 200, actions[3]);
    OnePass(actions[3..4], 0);
    FedOnce(a1, i3);
  }

  /** Before and after router 1 takes over at five seconds: router 0 would wait until six. */
  predicate Pending(n: Net, n': Net) {
    && |n| == |n'| == 2 && n[0] == n'[0] && n[0].cfg == Site(Big, 1) && n[1].cfg == n'[1].cfg == Site(Little, 2)
    && n[0].state == n[1].state == BACKUP && n[0].priority == 100 && n[1].priority == n'[1].priority == 200
    && n[0].downTimer == Timespec(6, 0) && n[1].downTimer == Timespec(4, 0)
    && n'[1].state == MASTER && n'[1].advTimer == Timespec(6, 0) && Sends(n[1], n'[1])
  }

  /** Router 0 reads the announcement at once. */
  predicate Overhears(t: Instance, a: Action)
    requires t.Valid()
  {
    var f := Announcement(t);
    |f.ip| == 20 && |f.adv| <= 1036 && a == Action(0, At(5, Ready(Some(Read(f)), None)))
  }

  lemma HealthyStart(n: Net)
    requires InitialNet(n, 1, 200) && |n| == 2 && n[0].cfg == Site(Big, 1) && n[1].cfg == Site(Little, 2)
    ensures Healthy(n, 1, 200)
  {
    hide InitialNet, Peers, Comparable, Fits, RealSource, Led;
    SitesAgree();
    InitialIsHealthy(n, 1, 200);
  }

  /** The last two actions of the run, as the theorems of `Service` see them. */
  lemma LastActions(trace: seq<Net>, actions: seq<Action>)
    requires HealthyRun(trace, actions, 1, 200) && |actions| == 2 && Pending(trace[0], trace[1])
    requires trace[0][1].Valid() && actions[0] == Action(1, At(5, QUIET)) && Overhears(trace[0][1], actions[1])
    ensures Punctual(trace, actions, 1, 0, NANO, NANO / 2) && Silent(trace, actions, 1)
  {
    hide Healthy, Obeys, Act, Overhears, Harmless, NoResignation, Conveyed, Inv, AwaitedDeadline;
    var n0, n1 := trace[0], trace[1];
    RunInv(trace, actions, 1, 200, 0, 1);
    RunInv(trace, actions, 1, 200, 1, 1);
    BackupAwaits(n0[1]);
    MasterAwaits(n1[1]);
    QuietIsHarmless(5);
    OverheardSmooth(n0[1], n1[0], actions[1]);
    assert Smooth(n0, actions[0], 1) && InTimeFor(n0, actions[0], 1, NANO);
    assert Smooth(n1, actions[1], 1) && InTimeFor(n1, actions[1], 1, NANO);
    assert Conveyed(trace, actions, 1, 0, 1, NANO / 2) by { ConveyedInTime(trace, actions); }
  }

  lemma ConveyedInTime(trace: seq<Net>, actions: seq<Action>)
    requires HealthyRun(trace, actions, 1, 200) && |actions| == 2
    requires actions[0].input.t2 == actions[1].input.t1
    ensures Conveyed(trace, actions, 1, 0, 1, NANO / 2)
  {
    hide HealthyRun;
  }

  lemma QuietIsHarmless(sec: nat)
    requires sec > 0
    ensures Harmless(At(sec, QUIET)) && !ReadsSocket(At(sec, QUIET))
  {
  }

  /**
   The end of that run meets the premises of `Handover.Succession` at its
   beginning, and those of `Service.LeaderServes` and `Service.Stabilises` one
   action later.
   */
  lemma RouterSucceeds() returns (trace: seq<Net>, actions: seq<Action>)
    ensures Succeeding(trace, actions, 1, 200, NANO, NANO / 2)
    ensures Serving(trace, actions, 1, 200, 1, NANO, NANO / 2) && |actions| == 2
    ensures HeardBefore(trace, actions, 1, 1, 2, 0) && |trace| == 3 && |trace[2]| == 2 && Reheard(trace[2][0])
  {
    hide InitialNet, AllFed, Obeys, Act, Overhears, Punctual, Silent, Healthy, Pending, Reheard, Inv, Serving,
         Succeeding, HeardBefore;
    var all, acts, last := TwoRouters();
    HealthyStart(all[0]);
    RunIsHealthy(all, acts, 1, 200, 2);
    trace, actions := all[2..], acts[2..];
    assert actions[0] == acts[2] && actions[1] == acts[3];
    assert trace[0] == all[2] && trace[1] == all[3] && trace[2] == all[4];
    assert IsRun(trace, actions, 1, 200);
    LastActions(trace, actions);
    LaterPunctual(trace, actions, 1, 1, NANO, NANO / 2);
    ServesNow(trace, actions);
    OverheardBefore(trace, actions);
  }

  lemma ServesNow(trace: seq<Net>, actions: seq<Action>)
    requires HealthyRun(trace, actions, 1, 200) && |actions| == 2 && Pending(trace[0], trace[1])
    requires actions[0] == Action(1, At(5, QUIET)) && Silent(trace, actions, 1)
    requires Punctual(trace, actions, 1, 0, NANO, NANO / 2) && Punctual(trace, actions, 1, 1, NANO, NANO / 2)
    ensures Succeeding(trace, actions, 1, 200, NANO, NANO / 2)
    ensures Serving(trace, actions, 1, 200, 1, NANO, NANO / 2)
  {
    hide Healthy, Obeys, Act, Punctual, Silent, Sends;
  }

  lemma OverheardBefore(trace: seq<Net>, actions: seq<Action>)
    requires HealthyRun(trace, actions, 1, 200) && |actions| == 2 && Pending(trace[0], trace[1])
    requires trace[0][1].Valid() && Overhears(trace[0][1], actions[1])
    ensures HeardBefore(trace, actions, 1, 1, 2, 0)
  {
    hide Healthy, Obeys, Act, Inv, Overhears, Hands;
    RunInv(trace, actions, 1, 200, 0, 1);
    RunInv(trace, actions, 1, 200, 0, 0);
    OverheardInTime(trace[0][1], trace[0][0], actions[1]);
    assert HeardAt(trace, actions, 1, 1, 1, 0);
  }

  lemma OverheardInTime(t: Instance, s: Instance, a: Action)
    requires Inv(t) && t.Valid() && t.cfg.family.V4? && Overhears(t, a)
    requires Inv(s) && s.cfg.family.V4? && s.state == BACKUP && s.downTimer == Timespec(6, 0)
    ensures a.node == 0 && Hands(t, s, a.input)
  {
    hide Hands, Announcement, Inv, AwaitedDeadline;
    BackupAwaits(s);
    HandsAt(t, s, 5);
  }

  /** Router 1 then fails, and router 0 takes over at nine seconds: the premises of `Handover.Failover`. */
  lemma RouterFails() returns (trace: seq<Net>, actions: seq<Action>)
    ensures |actions| == 3 && |trace| == 4
    ensures Serving(trace[..3], actions[..2], 1, 200, 1, NANO, NANO / 2)
    ensures Bereaved(trace[2..], actions[2..], 1, 0, 100, NANO, NANO / 2)
    ensures |trace[3]| == 2 && trace[3][0].state == MASTER
  {
    hide Serving, Succeeding, Bereaved, HeardBefore, Inv, Announcement;
    var served, acts := RouterSucceeds();
    var n := served[2];
    var r := Takes(n[0], 9);
    trace, actions := served + [n[0 := r]], acts + [Action(0, At(9, QUIET))];
    assert trace[..3] == served && actions[..2] == acts;
    assert trace[2..] == [n, n[0 := r]] && actions[2..] == [Action(0, At(9, QUIET))];
    Orphaned(n, r);
  }

  /** Router 0 after it has read the announcement: due at eight seconds. */
  predicate Reheard(s: Instance) {
    && Inv(s) && s.cfg == Site(Big, 1) && s.state == BACKUP && s.priority == 100 && s.sent == []
    && s.downTimer == Timespec(8, 0) && TestBit(s.reg, KEEP_GOING)
  }

  lemma Orphaned(n: Net, r: Instance)
    requires |n| == 2 && Reheard(n[0]) && n[0].Valid() && r == Step(n[0], At(9, QUIET)) && r.state == MASTER
    ensures Bereaved([n, n[0 := r]], [Action(0, At(9, QUIET))], 1, 0, 100, NANO, NANO / 2)
  {
    hide Step, Inv, Comparable, AwaitedDeadline, Harmless;
    BackupAwaits(n[0]);
    QuietIsHarmless(9);
    assert Comparable(V4, n[0].cfg.addr, n[0].cfg.addr) by { SelfComparable(n[0].cfg.addr); }
    assert Below(n[0], n[0].cfg, 100);
    assert Enabled(n, Action(0, At(9, QUIET)));
  }

  lemma SelfComparable(a: seq<byte>)
    requires |a| == 4
    ensures Comparable(V4, a, a)
  {
  }


  lemma LaterPunctual(trace: seq<Net>, actions: seq<Action>, l: nat, k: nat, e: int, d: int)
    requires |trace| == |actions| + 1 && Punctual(trace, actions, l, 0, e, d)
    ensures Punctual(trace, actions, l, k, e, d)
  {
    hide Smooth, InTimeFor, Conveyed, Clock;
  }

  lemma OverheardSmooth(t: Instance, s: Instance, a: Action)
    requires Inv(t) && t.cfg == Site(Little, 2) && t.priority == 200 && s.cfg == Site(Big, 1) && Overhears(t, a)
    ensures a.node == 0 && a.input.Valid() && a.input.t1 == a.input.t2 == Timespec(5, 0)
    ensures Harmless(a.input) && NoResignation(s, a.input)
  {
    hide Delivers, IpHeader, Prepared, HooksOk, IntervalOk, Peers;
    AdvertOk(t);
    PacketTiedToSender(t.cfg, s.cfg, Announcement(t), a.input.wake.socket.value);
  }

  lemma HearingAsksNothing(d: Datagram)
    requires d.Valid()
    ensures Requested(At(5, Ready(Some(d), None))) == None
  {
  }

  lemma OnePass(actions: seq<Action>, j: nat)
    requires |actions| == 1 && actions[0].node == j
    ensures Passes(actions, j) == [actions[0].input]
  {
    assert Passes(actions[..0], j) == [];
  }

  lemma FedOnce(s: Instance, i: Input)
    requires s.Valid() && i.Valid() && s.cfg.version == 2 && s.masterAdvInt == 1
    requires i.t1 == Timespec(5, 0) && OutcomeOf(s, i) == Rearmed
    ensures AllValid([i]) && Fed(s, [i], 3 * NANO)
  {
    hide OutcomeOf, Step;
    assert [i][1..] == [];
  }

  // ----- rounds -----

  lemma AnnouncementSize(s: Instance)
    requires Inv(s) && s.cfg.family.V4?
    ensures s.Valid() && |Announcement(s).ip| == 20 && |Announcement(s).adv| == s.cfg.Size() <= 1036
  {
    hide IpHeader, Prepared, HooksOk, IntervalOk, Coupled;
  }

  /** At `sec` seconds a router reads what `t` announces. */
  function Listening(t: Instance, sec: nat): (i: Input)
    requires t.Valid() && |Announcement(t).ip| == 20 && |Announcement(t).adv| <= 1036 && sec > 0
    ensures i.Valid()
  {
    At(sec, Ready(Some(Read(Announcement(t))), None))
  }

  lemma HandsAt(t: Instance, s: Instance, sec: nat)
    requires t.Valid() && |Announcement(t).ip| == 20 && |Announcement(t).adv| <= 1036
    requires s.cfg.family.V4? && sec > 0 && Nanos(AwaitedDeadline(s)) > sec * NANO
    ensures Hands(t, s, Listening(t, sec))
  {
    hide Delivers, Announcement, AwaitedDeadline, Expired, ExpiredCheck;
    NotYet(AwaitedDeadline(s), Timespec(sec, 0));
  }

  /** A router that reads an announcement before its deadline still has a deadline ahead. */
  lemma StillAhead(t: Instance, s: Instance, i: Input)
    requires Inv(t) && RealSource(t.cfg) && Attends(s) && Peers(t.cfg, s.cfg) && Hands(t, s, i)
    requires t.priority >= 1 && i.t0 == i.t1 == i.t2 && Nanos(AwaitedDeadline(s)) > Nanos(i.t2)
    ensures Nanos(AwaitedDeadline(Step(s, i))) > Nanos(i.t2)
  {
    hide Step, Listen, Prepared, HooksOk, PacketsOk, Peers, Fits, RealSource, Delivers, OutcomeOf, Coupled, Beats;
    var r := Step(s, i);
    HandedStep(t, s, i);
    if s.state == BACKUP {
      BackupAwaits(s);
      BackupAwaits(r);
      BackupPass(s, i);
      assert OutcomeOf(s, i) != Hurried && OutcomeOf(s, i) != Reloaded by { NotHurried(t, s, i); }
    } else if r.state == MASTER {
      MasterAwaits(s);
      MasterAwaits(r);
      AnnouncingPass(s, i);
    } else {
      BackupAwaits(r);
    }
  }

  lemma NotHurried(t: Instance, s: Instance, i: Input)
    requires Inv(t) && RealSource(t.cfg) && Attends(s) && Peers(t.cfg, s.cfg) && Hands(t, s, i)
    requires t.priority >= 1
    ensures OutcomeOf(s, i) != Hurried && OutcomeOf(s, i) != Reloaded
  {
    hide Listen, Prepared, HooksOk, PacketsOk, Peers, Fits, RealSource, Hands;
    HandedPacket(t, s, i);
  }

  /** A group whose deadlines all lie ahead of `sec` seconds. */
  predicate Gathered(n: Net, sec: nat) {
    && RunningGroup(n) && sec > 0
    && forall j :: 0 <= j < |n| ==>
         n[j].cfg.family.V4? && n[j].priority >= 1 && Nanos(AwaitedDeadline(n[j])) > sec * NANO
  }

  /** Deliveries from masters, each named by its sender and its receiver. */
  predicate Feasible(n: Net, pairs: seq<(nat, nat)>) {
    forall t :: 0 <= t < |pairs| ==>
      pairs[t].0 < |n| && pairs[t].1 < |n| && pairs[t].0 != pairs[t].1 && n[pairs[t].0].state == MASTER
  }

  /** In such a group any deliveries, in any order, do make a round. */
  lemma {:induction false} RoundExists(n0: Net, sec: nat, pairs: seq<(nat, nat)>)
    returns (trace: seq<Net>, ds: seq<Delivery>)
    requires Gathered(n0, sec) && Feasible(n0, pairs)
    ensures IsRound(trace, ds) && trace[0] == n0 && |ds| == |pairs|
    ensures forall t :: 0 <= t < |pairs| ==> ds[t].sender == pairs[t].0 && ds[t].receiver == pairs[t].1
    ensures Ahead(n0, trace[|ds|], sec)
  {
    hide Attends, Peers, Hands, Step, AwaitedDeadline, Listening, Announcement, Delivered;
    if pairs == [] {
      trace, ds := [n0], [];
    } else {
      var m := |pairs| - 1;
      var before, done := RoundExists(n0, sec, pairs[..m]);
      var d, n := OneMore(n0, sec, before, done, pairs[m].0, pairs[m].1);
      trace, ds := before + [n], done + [d];
      forall k | 0 <= k < |ds|
        ensures Delivered(n0, trace[k], ds[k], trace[k + 1])
      {
        if k < m {
          assert Delivered(n0, before[k], done[k], before[k + 1]);
        }
      }
    }
  }

  predicate Ahead(n0: Net, n: Net, sec: nat) {
    |n| == |n0| && forall j :: 0 <= j < |n| ==> Nanos(AwaitedDeadline(n[j])) > sec * NANO
  }

  lemma OneMore(n0: Net, sec: nat, trace: seq<Net>, ds: seq<Delivery>, from: nat, to: nat)
    returns (d: Delivery, n': Net)
    requires Gathered(n0, sec) && IsRound(trace, ds) && trace[0] == n0 && Ahead(n0, trace[|ds|], sec)
    requires from < |n0| && to < |n0| && from != to && n0[from].state == MASTER
    ensures d.sender == from && d.receiver == to && Delivered(n0, trace[|ds|], d, n') && Ahead(n0, n', sec)
  {
    hide Attends, Peers, Hands, Step, AwaitedDeadline, Listening, Announcement;
    var n := trace[|ds|];
    var t, s := n0[from], n[to];
    RoundSettles(trace, ds, |ds|, to);
    assert Inv(t) && RealSource(t.cfg) && s.Valid() by { AttendsMeans(t); AttendsMeans(s); InvValid(s); }
    assert Peers(t.cfg, s.cfg);
    AnnouncementSize(t);
    HandsAt(t, s, sec);
    d := Delivery(from, to, Listening(t, sec));
    ListeningAt(t, sec);
    StillAhead(t, s, d.input);
    n' := n[to := Step(s, d.input)];
  }

  lemma ListeningAt(t: Instance, sec: nat)
    requires t.Valid() && |Announcement(t).ip| == 20 && |Announcement(t).adv| <= 1036 && sec > 0
    ensures var i := Listening(t, sec);
            i.t0 == i.t1 == i.t2 == Timespec(sec, 0)
  {
  }

  /** A router that starts, hears nothing for four seconds and takes over at five. */
  lemma LoneMaster(c: Config, prio: byte) returns (trace: seq<Instance>, inputs: seq<Input>)
    requires c.Valid() && c.version == 2 && c.advInt == 1 && c.startDelay == 0 && 0 < prio < OWNER
    requires Fits(c) && RealSource(c)
    ensures IsTrace(trace, inputs) && |inputs| == 2 && |trace| == 3
    ensures var s := trace[2];
            Attends(s) && s.state == MASTER && s.cfg == c && s.priority == prio && s.advTimer == Timespec(6, 0)
  {
    hide Built, IpHeader, Step, Prepared, Coupled, HooksOk, PacketsOk, IntervalOk, Fits, RealSource, Announcement;
    var s0, s1 := Begins(c, prio, 1);
    var s2 := Takes(s1, 5);
    trace, inputs := [s0, s1, s2], [At(1, QUIET), At(5, QUIET)];
  }

  lemma LoneMasterAhead(s: Instance)
    requires Attends(s) && s.state == MASTER && s.advTimer == Timespec(6, 0)
    ensures Nanos(AwaitedDeadline(s)) > 5 * NANO
  {
    MasterAwaits(s);
  }

  /**
   Both routers take over at five seconds, and then read each other: the
   premises of `Convergence.OneMasterRemains`.
   */
  lemma TwoMasters() returns (trace: seq<Net>, ds: seq<Delivery>)
    ensures IsRound(trace, ds) && RouterGroup(trace[0]) && Complete(trace[0], ds)
    ensures |trace[0]| == 2 && trace[0][0].state == trace[0][1].state == MASTER
  {
    hide IsTrace, Attends, AwaitedDeadline, Value, Comparable, Peers, Fits, RealSource, IsRound, Feasible;
    SitesAgree();
    var ta, ia := LoneMaster(Site(Big, 1), 100);
    var tb, ib := LoneMaster(Site(Little, 2), 200);
    var n := [ta[2], tb[2]];
    LoneMasterAhead(n[0]);
    LoneMasterAhead(n[1]);
    assert Gathered(n, 5) && RouterGroup(n);
    var pairs := [(1, 0), (0, 1)];
    assert Feasible(n, pairs) by { FeasibleTwo(n); }
    trace, ds := RoundExists(n, 5, pairs);
    CompleteTwo(n, ds);
  }

  lemma FeasibleTwo(n: Net)
    requires |n| == 2 && n[0].state == n[1].state == MASTER
    ensures Feasible(n, [(1, 0), (0, 1)])
  {
  }

  lemma CompleteTwo(n: Net, ds: seq<Delivery>)
    requires |n| == 2 && |ds| == 2
    requires ds[0].sender == ds[1].receiver == 1 && ds[1].sender == ds[0].receiver == 0
    ensures Complete(n, ds)
  {
    assert Reached(ds, 2, 1, 0) && Reached(ds, 2, 0, 1);
  }
}
