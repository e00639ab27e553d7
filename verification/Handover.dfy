/**
 From one master to the next: who takes over when a master falls silent,
 resigns or fails, and that nobody else does.
 */
module Handover {
  import opened Bytes
  import opened Address
  import opened Advert
  import opened Receive
  import opened Timers
  import opened Machine
  import opened Runs
  import opened Timed
  import opened Election
  import opened Convergence
  import opened Exclusion
  import opened Service

  // ----- succession -----

  /** Nobody reads an advertisement while the future leader waits: the old master has fallen silent. */
  predicate Silent(trace: seq<Net>, actions: seq<Action>, l: nat)
    requires |trace| == |actions| + 1
  {
    forall t :: 0 <= t < |actions| && l < |trace[t]| && trace[t][l].state == BACKUP ==> !ReadsSocket(actions[t].input)
  }

  /** All are backups, and the leader's deadline comes first by more than lateness and delay together. */
  ghost predicate Succeeding(trace: seq<Net>, actions: seq<Action>, l: nat, p: byte, e: int, d: int) {
    && HealthyRun(trace, actions, l, p) && Punctual(trace, actions, l, 0, e, d) && Silent(trace, actions, l)
    && l < |trace[0]| && 0 <= d && 0 <= e && d + e < 2 * Period(trace[0][l].cfg)
    && (forall j :: 0 <= j < |trace[0]| ==> trace[0][j].state == BACKUP && trace[0][j].priority != OWNER)
    && (forall j :: 0 <= j < |trace[0]| && j != l ==>
          Nanos(trace[0][j].downTimer) > Nanos(trace[0][l].downTimer) + e + d)
  }

  /** Nothing has changed yet: every router is a backup with its first deadline. */
  predicate StillWaiting(n0: Net, n: Net) {
    |n| == |n0| && forall j :: 0 <= j < |n| ==>
      n[j].state == BACKUP && n[j].priority == n0[j].priority && n[j].downTimer == n0[j].downTimer
  }

  lemma SilentPass(s: Instance, i: Input)
    requires Inv(s) && i.Valid() && s.state == BACKUP && Harmless(i) && !ReadsSocket(i)
    ensures if Step(s, i).state == MASTER then Sends(s, Step(s, i))
            else Step(s, i).state == BACKUP && Step(s, i).downTimer == s.downTimer
    ensures Nanos(i.t1) < Nanos(s.downTimer) ==> Step(s, i).state != MASTER
    ensures Step(s, i).priority == s.priority
  {
    hide Inv, Step, Listen, Harmless, Stored, Filter, Announcement;
    InvValid(s);
    BackupPass(s, i);
    assert !TestBit(s.reg, RELOAD) by { InvFlags(s); }
    HarmlessListen(s, i);
    HarmlessKeepsPriority(s, i);
    if Listen(s, i).1 == PKT {
      ListenPacket(s, i);
    }
    if Nanos(i.t1) < Nanos(s.downTimer) {
      NotYet(s.downTimer, i.t0);
      NotYet(s.downTimer, i.t1);
    }
  }

  /** While nothing has changed, a pass changes nothing or makes the leader master. */
  lemma SuccessionStep(trace: seq<Net>, actions: seq<Action>, l: nat, p: byte, e: int, d: int, t: nat)
    requires Succeeding(trace, actions, l, p, e, d) && t < |actions| && StillWaiting(trace[0], trace[t])
    ensures StillWaiting(trace[0], trace[t + 1]) || Serving(trace, actions, l, p, t + 1, e, d)
    ensures Clock(actions[t]) <= Nanos(trace[0][l].downTimer) + e
  {
    hide Healthy, Obeys, Act, Step, Inv, Period, Harmless, Conveyed, AwaitedDeadline;
    var a := actions[t];
    assert InTimeFor(trace[t], a, l, e) && Smooth(trace[t], a, l) && !ReadsSocket(a.input);
    RunInv(trace, actions, l, p, t, l);
    BackupAwaits(trace[t][l]);
    RunInv(trace, actions, l, p, t, a.node);
    SilentPass(trace[t][a.node], a.input);
    RunIsHealthy(trace, actions, l, p, t + 1);
    forall j | 0 <= j < |trace[t + 1]|
      ensures trace[t + 1][j] == if a.node == j then Step(trace[t][j], a.input) else trace[t][j]
    {
      ActOn(trace[t], a, l, p, j);
    }
  }

  lemma {:induction false} SuccessionUpTo(trace: seq<Net>, actions: seq<Action>, l: nat, p: byte, e: int, d: int,
                                          m: nat)
    returns (k: nat)
    requires Succeeding(trace, actions, l, p, e, d) && m <= |actions|
    ensures StillWaiting(trace[0], trace[m]) || (k <= m && Serving(trace, actions, l, p, k, e, d))
  {
    hide Healthy, Obeys, Act, Punctual, Clock, Period, Silent, Serving;
    k := 0;
    if m > 0 {
      k := SuccessionUpTo(trace, actions, l, p, e, d, m - 1);
      if StillWaiting(trace[0], trace[m - 1]) {
        SuccessionStep(trace, actions, l, p, e, d, m - 1);
        k := m;
      }
    }
  }

  /**
   Succession: when the master falls silent, the survivor whose deadline comes
   first by more than its lateness and the delay of the link takes over, and no
   other router ever does. At every moment all are backups or it is the only
   master; and it is master once the clock has passed its deadline by `e`.
   */
  lemma Succession(trace: seq<Net>, actions: seq<Action>, l: nat, p: byte, e: int, d: int, m: nat)
    requires Succeeding(trace, actions, l, p, e, d) && m <= |actions|
    ensures OnlyMaster(trace[m], l, |trace[0]|)
            || (|trace[m]| == |trace[0]| && forall j :: 0 <= j < |trace[m]| ==> trace[m][j].state == BACKUP)
    ensures m < |actions| && Clock(actions[m]) > Nanos(trace[0][l].downTimer) + e ==>
              OnlyMaster(trace[m], l, |trace[0]|)
  {
    hide Healthy, Obeys, Act, Punctual, Clock, Period, Silent, Serving;
    var k := SuccessionUpTo(trace, actions, l, p, e, d, m);
    if StillWaiting(trace[0], trace[m]) {
      if m < |actions| {
        SuccessionStep(trace, actions, l, p, e, d, m);
      }
    } else {
      LeaderServes(trace, actions, l, p, k, e, d, m);
    }
  }

  lemma SkewGap(s: Instance, t: Instance, gap: nat)
    requires s.cfg.version == t.cfg.version == 3 && s.masterAdvInt == t.masterAdvInt
    requires (s.priority - t.priority) * s.masterAdvInt >= 256 * gap
    ensures SkewTime(t) >= SkewTime(s) + gap
  {
    var p, q, m: int := 256 - s.priority, 256 - t.priority, s.masterAdvInt;
    assert q * m - p * m == (q - p) * m >= 256 * gap;
  }

  /**
   In version 3 the skew makes priority decide, whether the master fell silent
   (`base` is three intervals) or resigned (`base` is 0): survivors armed by its
   last packet, none more than `w` before the first in rank, whose priorities
   leave `gap` centiseconds between that one and the others, meet the conditions
   of succession once `gap` exceeds lateness, delay and `w` together.
   */
  lemma HighestPrioritySucceeds(trace: seq<Net>, actions: seq<Action>, l: nat, p: byte, e: int, d: int, m: nat,
                                armed: seq<Timespec>, w: int, base: nat, gap: nat)
    requires HealthyRun(trace, actions, l, p) && Punctual(trace, actions, l, 0, e, d) && Silent(trace, actions, l)
    requires l < |trace[0]| == |armed| && trace[0][l].cfg.version == 3 && m <= |actions|
    requires 0 <= d && 0 <= e && d + e < 2 * Period(trace[0][l].cfg) && d + e + w < gap * CENTI
    requires forall j :: 0 <= j < |trace[0]| ==>
               && trace[0][j].state == BACKUP && trace[0][j].priority != OWNER
               && trace[0][j].downTimer == Deadline(armed[j], 3, base + SkewTime(trace[0][j]))
               && Nanos(armed[l]) <= Nanos(armed[j]) + w
    requires forall j :: 0 <= j < |trace[0]| && j != l ==>
               (p - trace[0][j].priority) * trace[0][l].cfg.advInt >= 256 * gap
    ensures OnlyMaster(trace[m], l, |trace[0]|)
            || (|trace[m]| == |trace[0]| && forall j :: 0 <= j < |trace[m]| ==> trace[m][j].state == BACKUP)
    ensures m < |actions| && Clock(actions[m]) > Nanos(trace[0][l].downTimer) + e ==>
              OnlyMaster(trace[m], l, |trace[0]|)
  {
    hide Obeys, Act, Punctual, Silent, SkewTime, Below, Peers, Clock, Fits, RealSource;
    forall j | 0 <= j < |trace[0]| && j != l
      ensures Nanos(trace[0][j].downTimer) > Nanos(trace[0][l].downTimer) + e + d
    {
      SameInterval(trace[0], l, j);
      SkewGap(trace[0][l], trace[0][j], gap);
    }
    Succession(trace, actions, l, p, e, d, m);
  }

  // ----- failover -----

  /** Node `o` makes no pass, and nothing that it sent is read. */
  ghost predicate Bypasses(n: Net, a: Action, o: nat) {
    && Enabled(n, a) && a.node != o
    && (ReadsSocket(a.input) ==>
          exists j: nat, k: nat :: j != o && Arrives(n, n[a.node].cfg.family, a.input.wake.socket.value, j, k))
  }

  /**
   Node `o` has failed. Router `l` leads the others, who read nothing of `o` any
   more; its deadline comes first by more than lateness and delay together, and
   it is punctual.
   */
  ghost predicate Bereaved(trace: seq<Net>, actions: seq<Action>, o: nat, l: nat, p: byte, e: int, d: int) {
    && |trace| == |actions| + 1 && o < |trace[0]| && l < |trace[0]| && o != l
    && (forall t :: 0 <= t < |actions| ==>
          Bypasses(trace[t], actions[t], o) && trace[t + 1] == Act(trace[t], actions[t]))
    && Punctual(trace, actions, l, 0, e, d) && Silent(trace, actions, l) && trace[0][l].priority == p >= 1
    && (forall j :: 0 <= j < |trace[0]| && j != o ==> Below(trace[0][j], trace[0][l].cfg, p))
    && (forall j :: 0 <= j < |trace[0]| && j != o && j != l ==>
          Nanos(trace[0][j].downTimer) > Nanos(trace[0][l].downTimer) + e + d)
  }

  /** A stand-in for the failed node: a backup that has sent nothing and waits for ever. */
  function StandIn(s: Instance, far: Timespec): Instance {
    s.(sent := [], downTimer := far)
  }

  function Masked(trace: seq<Net>, o: nat, g: Instance): (r: seq<Net>)
    requires forall t :: 0 <= t < |trace| ==> o < |trace[t]|
    ensures |r| == |trace| && forall t :: 0 <= t < |r| ==> r[t] == trace[t][o := g]
  {
    seq(|trace|, t requires 0 <= t < |trace| => trace[t][o := g])
  }

  lemma {:induction false} BereavedKeeps(trace: seq<Net>, actions: seq<Action>, o: nat, l: nat, p: byte, e: int, d: int,
                                         t: nat)
    requires Bereaved(trace, actions, o, l, p, e, d) && t < |trace|
    ensures |trace[t]| == |trace[0]| && trace[t][o] == trace[0][o]
    ensures trace[t][l].cfg == trace[0][l].cfg
  {
    hide Punctual, Silent, Below, Step;
    if t > 0 {
      BereavedKeeps(trace, actions, o, l, p, e, d, t - 1);
      assert Bypasses(trace[t - 1], actions[t - 1], o) && trace[t] == Act(trace[t - 1], actions[t - 1]);
    }
  }

  /** With the stand-in in place of the failed node, the rest is a run of its own. */
  lemma MaskedRun(trace: seq<Net>, actions: seq<Action>, o: nat, l: nat, p: byte, e: int, d: int, g: Instance)
    requires Bereaved(trace, actions, o, l, p, e, d)
    ensures forall t :: 0 <= t < |trace| ==> o < |trace[t]|
    ensures IsRun(Masked(trace, o, g), actions, l, p)
  {
    hide Silent, Below, Step, Requested, NotAbove, InTimeFor, Conveyed;
    forall t | 0 <= t < |trace|
      ensures |trace[t]| == |trace[0]|
    {
      BereavedKeeps(trace, actions, o, l, p, e, d, t);
    }
    var masked := Masked(trace, o, g);
    forall t | 0 <= t < |actions|
      ensures Obeys(masked[t], l, p, actions[t]) && masked[t + 1] == Act(masked[t], actions[t])
    {
      assert Bypasses(trace[t], actions[t], o) && trace[t + 1] == Act(trace[t], actions[t]);
      assert Smooth(trace[t], actions[t], l);
      MaskedAct(trace[t], actions[t], o, l, p, g);
    }
  }

  lemma MaskedAct(n: Net, a: Action, o: nat, l: nat, p: byte, g: Instance)
    requires Bypasses(n, a, o) && o < |n| && l < |n| && Harmless(a.input)
    ensures Obeys(n[o := g], l, p, a) && Act(n, a)[o := g] == Act(n[o := g], a)
  {
    hide Step, NotAbove, Delivers;
    assert Requested(a.input) == None;
    if ReadsSocket(a.input) {
      var f, dg := n[a.node].cfg.family, a.input.wake.socket.value;
      var j: nat, k: nat :| j != o && Arrives(n, f, dg, j, k);
      assert Arrives(n[o := g], f, dg, j, k);
    }
  }

  /** Every router but `o` is a backup, except `l`, which is master. */
  predicate LivingMaster(n: Net, o: nat, l: nat) {
    forall j :: 0 <= j < |n| && j != o ==> n[j].state == if j == l then MASTER else BACKUP
  }

  predicate LivingBackups(n: Net, o: nat) {
    forall j :: 0 <= j < |n| && j != o ==> n[j].state == BACKUP
  }

  lemma MaskedPunctual(trace: seq<Net>, actions: seq<Action>, o: nat, l: nat, p: byte, e: int, d: int, g: Instance)
    requires Bereaved(trace, actions, o, l, p, e, d) && forall t :: 0 <= t < |trace| ==> o < |trace[t]|
    ensures Punctual(Masked(trace, o, g), actions, l, 0, e, d) && Silent(Masked(trace, o, g), actions, l)
  {
    hide Below, Act, Enabled, Arrives, NoResignation, Harmless, AwaitedDeadline, Reads, Clock;
    var masked := Masked(trace, o, g);
    forall t | 0 <= t < |actions|
      ensures actions[t].node != o && Smooth(masked[t], actions[t], l) && InTimeFor(masked[t], actions[t], l, e)
    {
      assert Bypasses(trace[t], actions[t], o);
      assert Smooth(trace[t], actions[t], l) && InTimeFor(trace[t], actions[t], l, e);
    }
    forall u: nat, t: nat | u < t < |actions| && actions[t].node != l
      ensures Conveyed(masked, actions, l, u, t, d)
    {
      assert Conveyed(trace, actions, l, u, t, d);
      if l < |masked[u]| && l < |masked[u + 1]| && masked[u][l].Valid() && Sends(masked[u][l], masked[u + 1][l])
         && Nanos(actions[t].input.t1) > Clock(actions[u]) + d
      {
        var v :| u < v < t && actions[v].node == actions[t].node && ReadBy(trace, actions, l, u, v);
        assert ReadBy(masked, actions, l, u, v);
      }
    }
  }

  /** An instant after `x`. */
  function After(x: int): (far: Timespec)
    ensures Nanos(far) > x && Running(far)
  {
    Timespec(if x > 0 then x + 1 else 1, 0)
  }

  lemma StandInBelow(s: Instance, far: Timespec, p: byte)
    requires Below(s, s.cfg, p) && s.state == BACKUP && Running(far)
    ensures Below(StandIn(s, far), s.cfg, p)
  {
    hide Prepared, FrameOf, Comparable, NotAbove, Switches;
  }

  /** The survivors, all backups of one router on one interval. */
  predicate Survivors(n: Net, o: nat, l: nat, e: int, d: int) {
    && OneRouter(n) && OnInterval(n) && l < |n| && 0 <= d && 0 <= e && d + e < 2 * Period(n[l].cfg)
    && forall j :: 0 <= j < |n| && j != o ==> n[j].state == BACKUP && n[j].priority != OWNER
  }

  lemma MaskedSucceeding(trace: seq<Net>, actions: seq<Action>, o: nat, l: nat, p: byte, e: int, d: int)
    returns (g: Instance)
    requires Bereaved(trace, actions, o, l, p, e, d) && Survivors(trace[0], o, l, e, d)
    ensures forall t :: 0 <= t < |trace| ==> o < |trace[t]|
    ensures Succeeding(Masked(trace, o, g), actions, l, p, e, d)
  {
    hide Punctual, Silent, Below, Peers, Fits, RealSource, Act, Period, Obeys;
    var s := trace[0][l];
    var far := After(Nanos(s.downTimer) + e + d);
    g := StandIn(s, far);
    StandInBelow(s, far, p);
    MaskedRun(trace, actions, o, l, p, e, d, g);
    MaskedPunctual(trace, actions, o, l, p, e, d, g);
    var n := Masked(trace, o, g)[0];
    assert g.cfg == s.cfg && forall j :: 0 <= j < |n| ==> n[j].cfg == trace[0][if j == o then l else j].cfg;
    assert Healthy(n, l, p);
  }

  /** Succession among the survivors of a failed node that stays in the network. */
  lemma SurvivorSucceeds(trace: seq<Net>, actions: seq<Action>, o: nat, l: nat, p: byte, e: int, d: int, m: nat)
    requires Bereaved(trace, actions, o, l, p, e, d) && Survivors(trace[0], o, l, e, d) && m <= |actions|
    ensures |trace[m]| == |trace[0]| && trace[m][o] == trace[0][o]
    ensures LivingMaster(trace[m], o, l) || LivingBackups(trace[m], o)
    ensures m < |actions| && Clock(actions[m]) > Nanos(trace[0][l].downTimer) + e ==> LivingMaster(trace[m], o, l)
  {
    hide Bereaved, Survivors, Succeeding, Clock;
    BereavedNames(trace, actions, o, l, p, e, d);
    BereavedKeeps(trace, actions, o, l, p, e, d, m);
    var g := MaskedSucceeding(trace, actions, o, l, p, e, d);
    var masked := Masked(trace, o, g);
    Succession(masked, actions, l, p, e, d, m);
    assert masked[0][l] == trace[0][l];
    assert forall j :: 0 <= j < |trace[m]| && j != o ==> masked[m][j] == trace[m][j];
  }

  /**
   Failover, over one run. The master `o` serves until moment `f`, where it
   fails without a word: it makes no more passes, and nothing it sent is read
   any more. Router `l` leads the others and is punctual. Then up to `f` node
   `o` is the only master; from `f` on, of the routers still running, either all
   are backups or `l` is the only master; and it is master once the clock has
   passed its deadline by `e`.
   */
  lemma Failover(trace: seq<Net>, actions: seq<Action>, o: nat, q: byte, k: nat, f: nat, l: nat, p: byte,
                 e: int, d: int, m: nat)
    requires k <= f <= |actions| && |trace| == |actions| + 1 && k <= m <= |actions|
    requires Serving(trace[..f + 1], actions[..f], o, q, k, e, d)
    requires Bereaved(trace[f..], actions[f..], o, l, p, e, d)
    ensures m <= f ==> OnlyMaster(trace[m], o, |trace[0]|)
    ensures f <= m ==> LivingMaster(trace[m], o, l) || LivingBackups(trace[m], o)
    ensures f <= m < |actions| && Clock(actions[m]) > Nanos(trace[f][l].downTimer) + e ==> LivingMaster(trace[m], o, l)
  {
    hide Serving, Bereaved, Survivors, Clock;
    var before, acts := trace[..f + 1], actions[..f];
    var after, rest := trace[f..], actions[f..];
    assert after[0] == trace[f] == before[f] && before[0] == trace[0];
    if m <= f {
      LeaderServes(before, acts, o, q, k, e, d, m);
    }
    if f <= m {
      BereavedNames(after, rest, o, l, p, e, d);
      ServedSurvivors(before, acts, o, q, k, e, d, l, f);
      SurvivorSucceeds(after, rest, o, l, p, e, d, m - f);
      assert after[m - f] == trace[m] && (m < |actions| ==> rest[m - f] == actions[m]);
    }
  }

  lemma BereavedNames(trace: seq<Net>, actions: seq<Action>, o: nat, l: nat, p: byte, e: int, d: int)
    requires Bereaved(trace, actions, o, l, p, e, d)
    ensures |trace| == |actions| + 1 && l < |trace[0]| && o < |trace[0]| && l != o
  {
  }

  /** A served network is one of backups, and stays so without its master. */
  lemma ServedSurvivors(trace: seq<Net>, actions: seq<Action>, o: nat, q: byte, k: nat, e: int, d: int, l: nat, f: nat)
    requires Serving(trace, actions, o, q, k, e, d) && k <= f == |actions| && f < |trace| && l < |trace[f]|
    ensures Survivors(trace[f], o, l, e, d)
  {
    hide Led, Obeys, Act, Sends, Punctual, Clock, OneRouter, OnInterval;
    RunIsHealthy(trace, actions, o, q, f);
    assert Period(trace[f][l].cfg) == Period(trace[0][o].cfg) by { SamePeriod(trace[f], l, o); }
    forall j | 0 <= j < |trace[f]| && j != o
      ensures trace[f][j].state == BACKUP && trace[f][j].priority != OWNER
    {
      WaitsAlways(trace, actions, o, q, k, e, d, k, f, j);
    }
  }
}
