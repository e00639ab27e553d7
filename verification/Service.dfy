/**
 What the leader's punctuality and the link's delay give: one master while the
 leader is up, from whatever state the others are in.
 */
module Service {
  import opened Bytes
  import opened Address
  import opened Advert
  import opened Receive
  import opened Timers
  import opened Machine
  import opened Runs
  import opened Timed
  import opened Election
  import opened Convergence
  import opened Exclusion

  // ----- one virtual router, one interval -----

  /** All instances are configured for one virtual router with one interval, within the size limits. */
  predicate OneRouter(n: Net) {
    && (forall j :: 0 <= j < |n| ==> n[j].cfg.advInt <= 255 && Fits(n[j].cfg) && RealSource(n[j].cfg))
    && (forall i, j :: 0 <= i < |n| && 0 <= j < |n| ==> Peers(n[i].cfg, n[j].cfg))
  }

  /** Every running instance works with the interval it is configured with. */
  predicate OnInterval(n: Net) {
    forall j :: 0 <= j < |n| && n[j].state != INIT ==> n[j].masterAdvInt == n[j].cfg.advInt
  }

  predicate Healthy(n: Net, l: nat, p: byte) {
    Led(n, l, p) && OneRouter(n) && OnInterval(n)
  }

  lemma InitialIsHealthy(n: Net, l: nat, p: byte)
    requires InitialNet(n, l, p) && OneRouter(n)
    ensures Healthy(n, l, p)
  {
    hide Led, OneRouter;
    InitialIsLed(n, l, p);
  }

  /** No peer teaches a peer another interval. */
  lemma PeerTeachesOwn(s: Instance, t: Instance, k: nat, i: Input)
    requires Inv(s) && Inv(t) && Peers(t.cfg, s.cfg) && t.cfg.advInt <= 255 && s.cfg.version == 3
    requires i.Valid() && i.wake.Ready? && i.wake.socket.Some?
    requires k < |t.sent| && Delivers(s.cfg.family, t.sent[k], i.wake.socket.value)
    ensures HighOctet(s, i) == 0
  {
    hide Inv, Prepared, Delivers;
    assert s.Valid() && t.Valid() by { InvValid(s); InvValid(t); }
    InvFrame(t, k);
    var f := t.sent[k];
    PacketTiedToSender(t.cfg, s.cfg, f, i.wake.socket.value);
    HeaderOctets(t.cfg, f.adv[2], f.adv);
  }

  lemma StepKeepsInterval(s: Instance, i: Input)
    requires Inv(s) && i.Valid() && (s.state != INIT ==> s.masterAdvInt == s.cfg.advInt)
    requires s.cfg.version == 3 && i.wake.Ready? && i.wake.socket.Some? ==> HighOctet(s, i) == 0
    ensures Step(s, i).state != INIT ==> Step(s, i).masterAdvInt == s.cfg.advInt
  {
    hide Inv, Step;
    InvValid(s);
    if s.state == INIT {
      InitPass(s, i);
    } else if Step(s, i).state != INIT {
      IntervalPass(s, i);
    }
  }

  lemma ActKeepsHealth(n: Net, a: Action, l: nat, p: byte)
    requires Healthy(n, l, p) && Obeys(n, l, p, a)
    ensures Healthy(Act(n, a), l, p)
  {
    hide Led, Step, Peers, Fits, RealSource, Delivers, HighOctet, NotAbove, Requested;
    ActKeepsLed(n, a, l, p);
    var s := n[a.node];
    LedInv(n, l, p, a.node);
    if s.cfg.version == 3 && a.input.wake.Ready? && a.input.wake.socket.Some? {
      var j: nat, k: nat :| Arrives(n, s.cfg.family, a.input.wake.socket.value, j, k);
      LedInv(n, l, p, j);
      assert Peers(n[j].cfg, s.cfg);
      PeerTeachesOwn(s, n[j], k, a.input);
    }
    StepKeepsInterval(s, a.input);
  }

  lemma LedInv(n: Net, l: nat, p: byte, j: nat)
    requires Led(n, l, p) && j < |n|
    ensures Inv(n[j]) && n[j].Valid() && l < |n|
  {
    hide Inv;
    BelowInv(n[j], n[l].cfg, p);
    InvValid(n[j]);
  }

  /**
   In a network of one virtual router every running instance keeps to the
   interval it is configured with, and hence announces: the condition under
   which version 3 advertises on time.
   */
  lemma {:induction false} RunIsHealthy(trace: seq<Net>, actions: seq<Action>, l: nat, p: byte, k: nat)
    requires IsRun(trace, actions, l, p) && Healthy(trace[0], l, p) && k < |trace|
    ensures Healthy(trace[k], l, p) && |trace[k]| == |trace[0]|
    ensures forall j :: 0 <= j < |trace[0]| ==> trace[k][j].cfg == trace[0][j].cfg
  {
    hide Healthy, Obeys, Step;
    if k > 0 {
      RunIsHealthy(trace, actions, l, p, k - 1);
      ActKeepsHealth(trace[k - 1], actions[k - 1], l, p);
      forall j | 0 <= j < |trace[0]|
        ensures trace[k][j].cfg == trace[0][j].cfg
      {
        ActOn(trace[k - 1], actions[k - 1], l, p, j);
      }
    }
  }

  // ----- time on the network -----

  /** When the pass acts: its sends and its timers count from here. */
  function Clock(a: Action): int {
    Nanos(a.input.t2)
  }

  /** One announcement interval, in nanoseconds. */
  function Period(c: Config): int {
    c.advInt * UnitOf(c.version)
  }

  predicate Sends(before: Instance, after: Instance) {
    |after.sent| > |before.sent|
  }

  /** The pass reads the announcement that `t` had prepared. */
  predicate Reads(t: Instance, s: Instance, i: Input)
    requires t.Valid()
  {
    i.wake.Ready? && i.wake.socket.Some? && Delivers(s.cfg.family, Announcement(t), i.wake.socket.value)
  }

  predicate ReadsSocket(i: Input) {
    i.wake.Ready? && i.wake.socket.Some?
  }

  /** What a router reads is not a resignation. */
  predicate NoResignation(s: Instance, i: Input)
    requires s.cfg.Valid() && i.Valid()
  {
    ReadsSocket(i) ==> Payload(s.cfg, i.wake.socket.value)[2] != 0
  }

  /** A run from a healthy state; `trace[t][j]` is node `j` before action `t`. */
  ghost predicate HealthyRun(trace: seq<Net>, actions: seq<Action>, l: nat, p: byte) {
    IsRun(trace, actions, l, p) && Healthy(trace[0], l, p) && p >= 1
  }

  /**
   From action `k` on: passes follow one another in time and reload nobody, no
   old resignation is read, the leader is never late by more than `e` for the
   timer it waits on, and each of its announcements is read by a router before
   that router makes a pass more than `d` later. The announcement of action
   `k - 1`, if it was one, is included.
   */
  ghost predicate Punctual(trace: seq<Net>, actions: seq<Action>, l: nat, k: nat, e: int, d: int)
    requires |trace| == |actions| + 1
  {
    && (forall s, t :: 0 <= s && k - 1 <= s <= t < |actions| ==> Clock(actions[s]) <= Clock(actions[t]))
    && (forall t :: k <= t < |actions| ==> Smooth(trace[t], actions[t], l))
    && (forall t :: k <= t < |actions| ==> InTimeFor(trace[t], actions[t], l, e))
    && (forall u: nat, t: nat :: k - 1 <= u < t < |actions| && actions[t].node != l ==>
                                   Conveyed(trace, actions, l, u, t, d))
  }

  predicate Smooth(n: Net, a: Action, l: nat) {
    && a.node < |n| && n[a.node].cfg.Valid() && a.input.Valid() && Harmless(a.input)
    && (a.node != l ==> NoResignation(n[a.node], a.input))
  }

  predicate InTimeFor(n: Net, a: Action, l: nat, e: int) {
    l < |n| && Clock(a) <= Nanos(AwaitedDeadline(n[l])) + e
  }

  /** If the leader sends at action `u` and action `t` comes more than `d` later, its node has read the packet. */
  ghost predicate Conveyed(trace: seq<Net>, actions: seq<Action>, l: nat, u: nat, t: nat, d: int)
    requires |trace| == |actions| + 1 && u < t < |actions|
  {
    l < |trace[u]| && l < |trace[u + 1]| && trace[u][l].Valid() && Sends(trace[u][l], trace[u + 1][l])
    && Nanos(actions[t].input.t1) > Clock(actions[u]) + d ==>
      exists v :: u < v < t && actions[v].node == actions[t].node && ReadBy(trace, actions, l, u, v)
  }

  predicate ReadBy(trace: seq<Net>, actions: seq<Action>, l: nat, u: nat, v: nat)
    requires u < |trace| && v < |trace| && v < |actions|
  {
    l < |trace[u]| && trace[u][l].Valid() && actions[v].node < |trace[v]|
    && Reads(trace[u][l], trace[v][actions[v].node], actions[v].input)
  }

  // ----- one pass -----

  /** A backup that makes a smooth pass before its deadline is rearmed or does nothing. */
  lemma SmoothBackupPass(s: Instance, i: Input)
    requires Inv(s) && i.Valid() && s.state == BACKUP && Harmless(i) && NoResignation(s, i)
    requires Nanos(i.t1) < Nanos(s.downTimer)
    ensures OutcomeOf(s, i) == Rearmed || OutcomeOf(s, i) == Ignored
    ensures Step(s, i).state == BACKUP && Step(s, i).priority == s.priority
  {
    hide Inv, Step, Listen, Harmless, Stored, Filter;
    InvValid(s);
    NotYet(s.downTimer, i.t0);
    NotYet(s.downTimer, i.t1);
    BackupPass(s, i);
    assert !TestBit(s.reg, RELOAD) by { InvFlags(s); }
    HarmlessListen(s, i);
    if Listen(s, i).1 == PKT {
      ListenPacket(s, i);
    }
    assert Step(s, i).priority == s.priority by { HarmlessKeepsPriority(s, i); }
  }

  lemma InvFlags(s: Instance)
    requires Inv(s)
    ensures !TestBit(s.reg, RELOAD)
  {
  }

  lemma HarmlessKeepsPriority(s: Instance, i: Input)
    requires Inv(s) && i.Valid() && Harmless(i)
    ensures Step(s, i).priority == s.priority
  {
    hide Inv, Step;
    InvValid(s);
    StepEmits(s, i);
  }

  /** A backup that reads the leader's announcement in time is rearmed by it. */
  lemma ReadingRearms(t: Instance, s: Instance, i: Input)
    requires Inv(t) && RealSource(t.cfg) && Inv(s) && s.state == BACKUP && i.Valid() && Peers(t.cfg, s.cfg)
    requires s.cfg.advInt <= 255 && Fits(s.cfg) && RealSource(s.cfg)
    requires t.Valid() && Reads(t, s, i) && s.priority != OWNER && t.priority >= 1 && t.priority >= s.priority
    requires Step(s, i).state == BACKUP
    ensures OutcomeOf(s, i) == Rearmed
  {
    hide Listen, Step, Delivers, Prepared, HooksOk, PacketsOk, IntervalOk, Peers, Fits, RealSource,
         ExpiredCheck, Expired;
    BackupPass(s, i);
    HandedPacket(t, s, i);
  }

  /** A rearmed backup waits at least three intervals from the clock of the pass. */
  lemma RearmedWait(s: Instance, i: Input)
    requires Inv(s) && i.Valid() && s.state == BACKUP && OutcomeOf(s, i) == Rearmed
    requires Step(s, i).masterAdvInt == s.cfg.advInt
    ensures Nanos(Step(s, i).downTimer) >= Nanos(i.t2) + 3 * Period(s.cfg)
  {
    hide Step, OutcomeOf, Listen, Prepared, HooksOk, PacketsOk, Deadline;
    BackupPass(s, i);
    RearmedLongEnough(Step(s, i), i.t2);
  }

  // ----- the leader's timer -----

  /** An announcement sets the leader's timer one interval ahead; nothing else moves it. */
  lemma LeaderTimer(trace: seq<Net>, actions: seq<Action>, l: nat, p: byte, t: nat)
    requires HealthyRun(trace, actions, l, p) && t < |actions|
    requires l < |trace[t]| && l < |trace[t + 1]| && trace[t + 1][l].state == MASTER
    ensures l < |trace[0]|
    ensures Sends(trace[t][l], trace[t + 1][l]) ==>
              actions[t].node == l
              && Nanos(trace[t + 1][l].advTimer) == Clock(actions[t]) + Period(trace[0][l].cfg)
    ensures !Sends(trace[t][l], trace[t + 1][l]) ==>
              trace[t][l].state == MASTER && trace[t + 1][l].advTimer == trace[t][l].advTimer
  {
    hide Led, Obeys, OneRouter, Act, Step, Inv, Period;
    RunIsHealthy(trace, actions, l, p, t);
    RunIsHealthy(trace, actions, l, p, t + 1);
    RunInv(trace, actions, l, p, t, l);
    ActOn(trace[t], actions[t], l, p, l);
    if actions[t].node == l {
      OnePeriodAhead(trace[t][l], actions[t].input);
    }
  }

  lemma OnePeriodAhead(s: Instance, i: Input)
    requires Inv(s) && i.Valid() && Step(s, i).state == MASTER && Step(s, i).masterAdvInt == s.cfg.advInt
    ensures if Sends(s, Step(s, i)) then Nanos(Step(s, i).advTimer) == Nanos(i.t2) + Period(s.cfg)
            else s.state == MASTER && Step(s, i).advTimer == s.advTimer
  {
    hide Step, Inv, Deadline, UnitOf;
    InvValid(s);
    AnnouncingPass(s, i);
    DeadlineNanos(i.t2, s.cfg.version, AdvertUnits(Step(s, i)));
  }

  /** The leader has announced itself at action `k - 1`, and is punctual from then on. */
  ghost predicate Leading(trace: seq<Net>, actions: seq<Action>, l: nat, p: byte, k: nat, e: int, d: int) {
    && HealthyRun(trace, actions, l, p) && 1 <= k <= |actions| && Punctual(trace, actions, l, k, e, d)
    && l < |trace[0]| && 0 <= d && 0 <= e && d + e < 2 * Period(trace[0][l].cfg)
    && l < |trace[k - 1]| && l < |trace[k]| && trace[k][l].state == MASTER && Sends(trace[k - 1][l], trace[k][l])
  }

  /**
   At moment `b` node `j` is a backup whose deadline is more than `d` after that
   announcement; if `b` is later than `k`, three intervals after the pass before.
   */
  predicate SettledAt(trace: seq<Net>, actions: seq<Action>, k: nat, d: int, b: nat, j: nat, period: int)
    requires 1 <= k <= b < |trace| && |trace| == |actions| + 1
  {
    && j < |trace[b]| && trace[b][j].state == BACKUP && trace[b][j].priority != OWNER
    && Nanos(trace[b][j].downTimer) > Clock(actions[k - 1]) + d
    && (b > k ==> Nanos(trace[b][j].downTimer) >= Clock(actions[b - 1]) + 3 * period)
  }

  /** The leader has announced itself, and every other router waits longer than the delay of the link. */
  ghost predicate Serving(trace: seq<Net>, actions: seq<Action>, l: nat, p: byte, k: nat, e: int, d: int) {
    && Leading(trace, actions, l, p, k, e, d)
    && forall j :: 0 <= j < |trace[0]| && j != l ==> SettledAt(trace, actions, k, d, k, j, Period(trace[0][l].cfg))
  }

  lemma StaysMaster(trace: seq<Net>, actions: seq<Action>, l: nat, p: byte, k: nat, e: int, d: int, t: nat)
    requires Leading(trace, actions, l, p, k, e, d) && k <= t <= |actions|
    ensures l < |trace[t]| && trace[t][l].state == MASTER
  {
    hide Led, OneRouter, OnInterval, Obeys, Act, Harmless, NoResignation, InTimeFor, Conveyed;
    assert forall t :: k <= t < |actions| && actions[t].node == l ==> Smooth(trace[t], actions[t], l);
    LeaderLasts(trace, actions, l, p, k, t);
  }

  lemma BackupAwaits(s: Instance)
    requires Inv(s) && s.state == BACKUP
    ensures AwaitedDeadline(s) == s.downTimer
  {
  }

  lemma MasterAwaits(s: Instance)
    requires Inv(s) && s.state == MASTER
    ensures AwaitedDeadline(s) == s.advTimer
  {
  }

  /**
   Looking back from an instant `x` that comes at most `e + d` after the timer
   of moment `w`: the last announcement that is more than `d` old (or the first
   of all) is at most one interval, `e` and `d` old.
   */
  lemma {:induction false} LastConveyed(trace: seq<Net>, actions: seq<Action>, l: nat, p: byte, k: nat, e: int, d: int,
                                        w: nat, x: int) returns (u: nat)
    requires Leading(trace, actions, l, p, k, e, d) && k <= w <= |actions|
    requires l < |trace[w]| && x <= Nanos(trace[w][l].advTimer) + e + d
    ensures k - 1 <= u < w && l < |trace[u]| && l < |trace[u + 1]| && Sends(trace[u][l], trace[u + 1][l])
    ensures x <= Clock(actions[u]) + Period(trace[0][l].cfg) + e + d
    ensures Clock(actions[u]) + d < x || u == k - 1
    decreases w
  {
    hide Healthy, Obeys, Act, Sends, Smooth, Conveyed, AwaitedDeadline, Clock, Period;
    StaysMaster(trace, actions, l, p, k, e, d, w);
    RunIsHealthy(trace, actions, l, p, w);
    RunIsHealthy(trace, actions, l, p, w - 1);
    LeaderTimer(trace, actions, l, p, w - 1);
    u := w - 1;
    if k <= u && !(Sends(trace[u][l], trace[w][l]) && Clock(actions[u]) + d < x) {
      StaysMaster(trace, actions, l, p, k, e, d, u);
      assert InTimeFor(trace[u], actions[u], l, e);
      assert AwaitedDeadline(trace[u][l]) == trace[u][l].advTimer by {
        RunInv(trace, actions, l, p, u, l);
        MasterAwaits(trace[u][l]);
      }
      u := LastConveyed(trace, actions, l, p, k, e, d, u, x);
    }
  }

  lemma RunInv(trace: seq<Net>, actions: seq<Action>, l: nat, p: byte, t: nat, j: nat)
    requires HealthyRun(trace, actions, l, p) && t < |trace| && j < |trace[t]|
    ensures Inv(trace[t][j]) && trace[t][j].Valid()
  {
    hide Led, OneRouter, OnInterval, Inv, Obeys, Act;
    RunIsHealthy(trace, actions, l, p, t);
    LedInv(trace[t], l, p, j);
  }

  // ----- the backups -----

  /** Node `j` makes pass `a`, and is rearmed by it. */
  predicate Rearms(n: Net, a: Action, j: nat) {
    j < |n| && a.node == j && n[j].Valid() && a.input.Valid() && OutcomeOf(n[j], a.input) == Rearmed
  }

  /** At moment `t` node `j` is a backup that waits for every rearming pass since `b`. */
  predicate Waits(trace: seq<Net>, actions: seq<Action>, k: nat, d: int, b: nat, t: nat, j: nat, period: int)
    requires 1 <= k <= b <= t < |trace| && |trace| == |actions| + 1
  {
    && j < |trace[t]| && trace[t][j].state == BACKUP && trace[t][j].priority != OWNER
    && Nanos(trace[t][j].downTimer) > Clock(actions[k - 1]) + d
    && (b > k ==> Nanos(trace[t][j].downTimer) >= Clock(actions[b - 1]) + 3 * period)
    && forall v :: b <= v < t && Rearms(trace[v], actions[v], j) ==>
                     Nanos(trace[t][j].downTimer) >= Clock(actions[v]) + 3 * period
  }

  lemma BackupKeepsWaiting(trace: seq<Net>, actions: seq<Action>, l: nat, p: byte, k: nat, e: int, d: int,
                           b: nat, t: nat, j: nat)
    requires Leading(trace, actions, l, p, k, e, d) && k <= b <= t < |actions| && j != l
    requires Waits(trace, actions, k, d, b, t, j, Period(trace[0][l].cfg))
    requires actions[t].node == j ==> Nanos(actions[t].input.t1) < Nanos(trace[t][j].downTimer)
    ensures Waits(trace, actions, k, d, b, t + 1, j, Period(trace[0][l].cfg))
  {
    hide Led, OneRouter, Inv, Obeys, Act, Step, OutcomeOf, Harmless, NoResignation, InTimeFor, Conveyed;
    var s, i, period := trace[t][j], actions[t].input, Period(trace[0][l].cfg);
    ActOn(trace[t], actions[t], l, p, j);
    RunIsHealthy(trace, actions, l, p, t);
    RunIsHealthy(trace, actions, l, p, t + 1);
    LedInv(trace[t], l, p, j);
    if actions[t].node == j {
      assert Smooth(trace[t], actions[t], l);
      SmoothBackupPass(s, i);
      BackupPass(s, i);
      if OutcomeOf(s, i) == Rearmed {
        assert Period(s.cfg) == period by { SamePeriod(trace[t], j, l); }
        RearmedWait(s, i);
      }
    }
  }

  lemma SamePeriod(n: Net, i: nat, j: nat)
    requires OneRouter(n) && i < |n| && j < |n|
    ensures Period(n[i].cfg) == Period(n[j].cfg)
  {
    assert Peers(n[i].cfg, n[j].cfg);
  }

  /** Reading an announcement that the leader sent at `u` rearms the reader. */
  lemma ConveyedRearms(trace: seq<Net>, actions: seq<Action>, l: nat, p: byte, u: nat, v: nat, j: nat)
    requires HealthyRun(trace, actions, l, p) && u < v < |actions| && l < |trace[u]| && j != l
    requires actions[v].node == j && ReadBy(trace, actions, l, u, v)
    requires j < |trace[v]| && j < |trace[v + 1]|
    requires trace[v][j].state == trace[v + 1][j].state == BACKUP && trace[v][j].priority != OWNER
    ensures Rearms(trace[v], actions[v], j)
  {
    hide Inv, Obeys, Act, Step, OutcomeOf, Delivers, Fits, RealSource, Peers, Announcement, Value;
    RunIsHealthy(trace, actions, l, p, u);
    RunIsHealthy(trace, actions, l, p, v);
    RunInv(trace, actions, l, p, u, l);
    RunInv(trace, actions, l, p, v, j);
    ActOn(trace[v], actions[v], l, p, j);
    assert Peers(trace[v][l].cfg, trace[v][j].cfg);
    assert Below(trace[v][j], trace[v][l].cfg, p);
    ReadingRearms(trace[u][l], trace[v][j], actions[v].input);
  }

  /** A settled backup waits, at every later moment. */
  lemma {:induction false} WaitsAlways(trace: seq<Net>, actions: seq<Action>, l: nat, p: byte, k: nat, e: int, d: int,
                                       b: nat, t: nat, j: nat)
    requires Leading(trace, actions, l, p, k, e, d) && k <= b <= t <= |actions| && j < |trace[0]| && j != l
    requires SettledAt(trace, actions, k, d, b, j, Period(trace[0][l].cfg))
    ensures Waits(trace, actions, k, d, b, t, j, Period(trace[0][l].cfg))
    decreases t, 1
  {
    hide Healthy, Obeys, Act, Sends, Smooth, Conveyed, InTimeFor, Rearms, Period;
    if t > b {
      WaitsAlways(trace, actions, l, p, k, e, d, b, t - 1, j);
      if actions[t - 1].node == j {
        NotOverdue(trace, actions, l, p, k, e, d, b, t - 1, j);
      }
      BackupKeepsWaiting(trace, actions, l, p, k, e, d, b, t - 1, j);
    }
  }

  /** A settled backup never makes a pass at or after its deadline. */
  lemma {:induction false} NotOverdue(trace: seq<Net>, actions: seq<Action>, l: nat, p: byte, k: nat, e: int, d: int,
                                      b: nat, t: nat, j: nat)
    requires Leading(trace, actions, l, p, k, e, d) && k <= b <= t < |actions| && j < |trace[0]| && j != l
    requires SettledAt(trace, actions, k, d, b, j, Period(trace[0][l].cfg))
    requires actions[t].node == j && Waits(trace, actions, k, d, b, t, j, Period(trace[0][l].cfg))
    ensures Nanos(actions[t].input.t1) < Nanos(trace[t][j].downTimer)
    decreases t, 0
  {
    hide Healthy, Obeys, Act, Sends, Rearms, Period, Smooth, InTimeFor, Conveyed, ReadBy, Clock;
    LeaderDue(trace, actions, l, p, k, e, d, t);
    var x := Nanos(actions[t].input.t1);
    var u := LastConveyed(trace, actions, l, p, k, e, d, t, x);
    if Clock(actions[u]) + d < x {
      var v := ReaderOf(trace, actions, l, p, k, e, d, u, t);
      if v >= b {
        WaitsAlways(trace, actions, l, p, k, e, d, b, v, j);
        if v + 1 < t {
          WaitsAlways(trace, actions, l, p, k, e, d, b, v + 1, j);
        }
        ConveyedRearms(trace, actions, l, p, u, v, j);
      }
    }
  }

  lemma LeaderDue(trace: seq<Net>, actions: seq<Action>, l: nat, p: byte, k: nat, e: int, d: int, t: nat)
    requires Leading(trace, actions, l, p, k, e, d) && k <= t < |actions|
    ensures l < |trace[t]| && Nanos(actions[t].input.t1) <= Nanos(trace[t][l].advTimer) + e
  {
    hide Healthy, Obeys, Act, Sends, Period, Conveyed, AwaitedDeadline, NoResignation, Harmless, Inv;
    StaysMaster(trace, actions, l, p, k, e, d, t);
    RunInv(trace, actions, l, p, t, l);
    MasterAwaits(trace[t][l]);
    assert Smooth(trace[t], actions[t], l) && InTimeFor(trace[t], actions[t], l, e);
  }

  lemma ReaderOf(trace: seq<Net>, actions: seq<Action>, l: nat, p: byte, k: nat, e: int, d: int, u: nat, t: nat)
    returns (v: nat)
    requires Leading(trace, actions, l, p, k, e, d) && k - 1 <= u < t < |actions| && actions[t].node != l
    requires l < |trace[u]| && l < |trace[u + 1]| && Sends(trace[u][l], trace[u + 1][l])
    requires Nanos(actions[t].input.t1) > Clock(actions[u]) + d
    ensures u < v < t && actions[v].node == actions[t].node && ReadBy(trace, actions, l, u, v)
  {
    hide Healthy, Obeys, Act, Sends, Period, Smooth, InTimeFor, ReadBy, Inv;
    RunInv(trace, actions, l, p, u, l);
    assert Conveyed(trace, actions, l, u, t, d);
    v :| u < v < t && actions[v].node == actions[t].node && ReadBy(trace, actions, l, u, v);
  }

  /**
   One master while the leader is punctual. The leader has just announced
   itself and every other router is a backup that would wait longer than `d`;
   the leader is never late by more than `e`; each announcement is read by every
   other router within `d`; `e + d` is less than two intervals, so that one
   interval, `e` and `d` stay below three; nobody is reloaded, and no old
   resignation is read. Then at every later moment the leader is the only
   master, and every other router a backup.
   */
  lemma LeaderServes(trace: seq<Net>, actions: seq<Action>, l: nat, p: byte, k: nat, e: int, d: int, m: nat)
    requires Serving(trace, actions, l, p, k, e, d) && k <= m <= |actions|
    ensures OnlyMaster(trace[m], l, |trace[0]|)
  {
    hide Healthy, Obeys, Act, Sends, Punctual, Period, Clock;
    RunIsHealthy(trace, actions, l, p, m);
    StaysMaster(trace, actions, l, p, k, e, d, m);
    forall j | 0 <= j < |trace[m]| && j != l
      ensures trace[m][j].state == BACKUP
    {
      WaitsAlways(trace, actions, l, p, k, e, d, k, m, j);
    }
  }

  // ----- stabilisation -----

  /** At action `v` router `j`, whatever its state, reads in time what the leader announced at action `k - 1`. */
  predicate HeardAt(trace: seq<Net>, actions: seq<Action>, l: nat, k: nat, v: nat, j: nat)
    requires 1 <= k <= v < |actions| && |trace| == |actions| + 1
  {
    && l < |trace[k - 1]| && trace[k - 1][l].Valid() && actions[v].node == j && j < |trace[v]|
    && trace[v][j].priority != OWNER && Hands(trace[k - 1][l], trace[v][j], actions[v].input)
  }

  predicate HeardBefore(trace: seq<Net>, actions: seq<Action>, l: nat, k: nat, q: nat, j: nat)
    requires 1 <= k <= q <= |actions| && |trace| == |actions| + 1
  {
    exists v :: k <= v < q && HeardAt(trace, actions, l, k, v, j)
  }

  /** Reading the leader's announcement in time makes a master step down and rearms a backup. */
  lemma HearingSettles(t: Instance, s: Instance, i: Input)
    requires Inv(t) && RealSource(t.cfg) && Attends(s) && Peers(t.cfg, s.cfg) && Hands(t, s, i)
    requires s.priority != OWNER && t.priority >= 1 && t.priority >= s.priority
    requires Beats(t, s) && Step(s, i).masterAdvInt == s.cfg.advInt == t.cfg.advInt
    ensures Step(s, i).state == BACKUP && Step(s, i).priority == s.priority
    ensures Nanos(Step(s, i).downTimer) >= Nanos(i.t2) + 3 * Period(s.cfg)
  {
    hide Step, Listen, Prepared, HooksOk, PacketsOk, IntervalOk, Peers, Fits, RealSource, Delivers, Beats, Deadline,
         SkewTime;
    HandedStep(t, s, i);
    if s.state == BACKUP {
      HandedPacket(t, s, i);
      RearmedWait(s, i);
    } else {
      assert MasterdownInt(Step(s, i)) == 3 * t.cfg.advInt + SkewTime(Step(s, i));
      RearmedLongEnough(Step(s, i), i.t2);
    }
  }

  /** A leader with an address of its own beats every running router below it, but owners. */
  lemma LeaderBeats(t: Instance, s: Instance, p: byte)
    requires Below(s, t.cfg, p) && t.priority == p >= 1 && Peers(t.cfg, s.cfg) && s.priority != OWNER
    requires s.cfg.addr != t.cfg.addr
    ensures Beats(t, s) && p >= s.priority
  {
    hide Inv, Value;
    if Value(s.cfg.addr) == Value(t.cfg.addr) {
      ValueInjective(s.cfg.addr, t.cfg.addr);
    }
    AddrCmpIsOrder(s.cfg.family, t.cfg.addr, s.cfg.addr);
  }

  lemma HeardSettles(trace: seq<Net>, actions: seq<Action>, l: nat, p: byte, k: nat, e: int, d: int, v: nat, j: nat)
    requires Leading(trace, actions, l, p, k, e, d) && k <= v < |actions| && j < |trace[0]| && j != l
    requires trace[0][j].cfg.addr != trace[0][l].cfg.addr && HeardAt(trace, actions, l, k, v, j)
    ensures SettledAt(trace, actions, k, d, v + 1, j, Period(trace[0][l].cfg))
  {
    hide Inv, Obeys, Act, Step, Hands, Fits, RealSource, Peers, Value, Beats, Conveyed, Smooth, InTimeFor, Sends;
    RunIsHealthy(trace, actions, l, p, k - 1);
    RunIsHealthy(trace, actions, l, p, v);
    RunIsHealthy(trace, actions, l, p, v + 1);
    var t, s, i := trace[k - 1][l], trace[v][j], actions[v].input;
    RunInv(trace, actions, l, p, k - 1, l);
    RunInv(trace, actions, l, p, v, j);
    ActOn(trace[v], actions[v], l, p, j);
    assert Peers(trace[v][l].cfg, s.cfg) && Below(s, trace[v][l].cfg, p);
    assert Attends(s) by { HandsAttends(t, s, i); }
    LeaderBeats(t, s, p);
    SamePeriod(trace[v], j, l);
    SameInterval(trace[v], j, l);
    HandedStep(t, s, i);
    HearingSettles(t, s, i);
    assert Clock(actions[k - 1]) <= Clock(actions[v]);
  }

  /** A router in INIT waits for no timer, and so reads nothing. */
  lemma HandsAttends(t: Instance, s: Instance, i: Input)
    requires t.Valid() && Inv(s) && s.cfg.advInt <= 255 && Fits(s.cfg) && RealSource(s.cfg) && Hands(t, s, i)
    ensures Attends(s)
  {
    hide Delivers, HooksOk, PacketsOk, IntervalOk, Fits, RealSource;
  }

  /**
   Stabilisation: from any healthy state in which the leader is master, and
   whatever the others are -- masters, backups about to take over -- once each
   of them has read one announcement of the leader, the leader is the only
   master from then on.
   */
  lemma Stabilises(trace: seq<Net>, actions: seq<Action>, l: nat, p: byte, k: nat, e: int, d: int, q: nat, m: nat)
    requires Leading(trace, actions, l, p, k, e, d) && k <= q <= m <= |actions|
    requires forall j :: 0 <= j < |trace[0]| && j != l ==> trace[0][j].cfg.addr != trace[0][l].cfg.addr
    requires forall j :: 0 <= j < |trace[0]| && j != l ==> HeardBefore(trace, actions, l, k, q, j)
    ensures OnlyMaster(trace[m], l, |trace[0]|)
  {
    hide Healthy, Obeys, Act, Sends, Punctual, Period, Clock, HeardAt, SettledAt;
    RunIsHealthy(trace, actions, l, p, m);
    StaysMaster(trace, actions, l, p, k, e, d, m);
    forall j | 0 <= j < |trace[m]| && j != l
      ensures trace[m][j].state == BACKUP
    {
      assert HeardBefore(trace, actions, l, k, q, j);
      var v :| k <= v < q && HeardAt(trace, actions, l, k, v, j);
      HeardSettles(trace, actions, l, p, k, e, d, v, j);
      WaitsAlways(trace, actions, l, p, k, e, d, v + 1, m, j);
    }
  }

  lemma SameInterval(n: Net, i: nat, j: nat)
    requires OneRouter(n) && i < |n| && j < |n|
    ensures n[i].cfg.version == n[j].cfg.version && n[i].cfg.advInt == n[j].cfg.advInt
  {
    assert Peers(n[i].cfg, n[j].cfg);
  }
}
