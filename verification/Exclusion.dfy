/**
 The service the protocol is for: one master, and only one, for as long as its
 advertisements are heard in time.
 */
module Exclusion {
  import opened Bytes
  import opened Timers
  import opened Machine
  import opened Runs
  import opened Lifetime
  import opened Timed
  import opened Election

  /** The passes of node `j` among the actions of the network. */
  function Passes(actions: seq<Action>, j: nat): seq<Input> {
    if actions == [] then []
    else
      var last := actions[|actions| - 1];
      Passes(actions[..|actions| - 1], j) + (if last.node == j then [last.input] else [])
  }

  lemma {:induction false} PassesValid(trace: seq<Net>, actions: seq<Action>, l: nat, p: byte, k: nat, m: nat, j: nat)
    requires IsRun(trace, actions, l, p) && k <= m <= |actions|
    ensures AllValid(Passes(actions[k..m], j))
    decreases m
  {
    hide Act, Arrives, Requested, Passes;
    if k < m {
      PassesValid(trace, actions, l, p, k, m - 1, j);
      PassesSnoc(actions, k, m, j);
      assert Obeys(trace[m - 1], l, p, actions[m - 1]);
    } else {
      assert actions[k..k] == [] && Passes(actions[k..k], j) == [] by { NoPassesAt(actions[k..k], j); }
    }
  }

  lemma NoPassesAt(actions: seq<Action>, j: nat)
    requires |actions| == 0
    ensures Passes(actions, j) == []
  {
  }

  lemma PassesSnoc(actions: seq<Action>, k: nat, m: nat, j: nat)
    requires k < m <= |actions|
    ensures var before := Passes(actions[k..m - 1], j);
            Passes(actions[k..m], j) == if actions[m - 1].node == j then before + [actions[m - 1].input] else before
  {
    assert actions[k..m][..m - k - 1] == actions[k..m - 1];
  }

  lemma {:induction false} LoopSnoc(s: Instance, xs: seq<Input>, x: Input)
    requires s.Valid() && AllValid(xs) && x.Valid()
    requires TestBit(Loop(s, xs).reg, KEEP_GOING) && !Loop(s, xs).exited
    ensures AllValid(xs + [x]) && Loop(s, xs + [x]) == Step(Loop(s, xs), x)
    decreases xs
  {
    hide Step;
    if xs == [] {
      assert (xs + [x])[0] == x && (xs + [x])[1..] == [];
      assert Loop(Step(s, x), []) == Step(s, x);
    } else {
      assert (xs + [x])[0] == xs[0] && (xs + [x])[1..] == xs[1..] + [x];
      if TestBit(s.reg, KEEP_GOING) && !s.exited {
        LoopSnoc(Step(s, xs[0]), xs[1..], x);
      }
    }
  }

  lemma NodeInv(trace: seq<Net>, actions: seq<Action>, l: nat, p: byte, k: nat, j: nat)
    requires IsRun(trace, actions, l, p) && Led(trace[0], l, p) && k < |trace| && j < |trace[k]|
    ensures Inv(trace[k][j]) && trace[k][j].Valid() && !trace[k][j].exited
  {
    hide IsRun, Below, Coupled, HooksOk, PacketsOk, IntervalOk;
    RunIsLed(trace, actions, l, p, k);
    BelowInv(trace[k][j], trace[k][l].cfg, p);
  }

  /** Seen from one node, a run of the network is a run of its own main loop. */
  lemma {:induction false} NodeView(trace: seq<Net>, actions: seq<Action>, l: nat, p: byte, k: nat, m: nat, j: nat)
    requires IsRun(trace, actions, l, p) && Led(trace[0], l, p)
    requires k <= m <= |actions| && j < |trace[k]|
    ensures AllValid(Passes(actions[k..m], j)) && j < |trace[m]| && Inv(trace[k][j])
    ensures trace[m][j] == Loop(trace[k][j], Passes(actions[k..m], j))
    decreases m
  {
    hide Step, Led, Obeys, Inv, Passes, Loop, Act, Enabled;
    NodeInv(trace, actions, l, p, k, j);
    PassesValid(trace, actions, l, p, k, m, j);
    if k < m {
      var a := actions[m - 1];
      NodeView(trace, actions, l, p, k, m - 1, j);
      NodeInv(trace, actions, l, p, m - 1, j);
      PassesSnoc(actions, k, m, j);
      ActOn(trace[m - 1], a, l, p, j);
      if a.node == j {
        LoopSnoc(trace[k][j], Passes(actions[k..m - 1], j), a.input);
      }
    } else {
      NoPassesAt(actions[k..k], j);
      NoLoop(trace[k][j]);
    }
  }

  lemma NoLoop(s: Instance)
    requires s.Valid()
    ensures Loop(s, []) == s
  {
  }

  lemma ActOn(n: Net, a: Action, l: nat, p: byte, j: nat)
    requires Obeys(n, l, p, a) && j < |n|
    ensures Enabled(n, a) && a.input.Valid()
    ensures |Act(n, a)| == |n| && Act(n, a)[j] == if a.node == j then Step(n[j], a.input) else n[j]
    ensures a.node == j ==> TestBit(n[j].reg, KEEP_GOING)
  {
  }

  /**
   Every node but `l` is a backup and, over its passes among `actions`, hears
   an acceptable advertisement before three intervals have gone by since the
   previous one; `last[j]` is when node `j` was last rearmed.
   */
  predicate AllFed(n: Net, l: nat, actions: seq<Action>, last: seq<int>) {
    && |last| == |n|
    && forall j :: 0 <= j < |n| && j != l ==>
         && n[j].Valid() && n[j].state == BACKUP && AllValid(Passes(actions, j))
         && Nanos(n[j].downTimer) >= last[j] + 3 * n[j].masterAdvInt * UnitOf(n[j].cfg.version)
         && Fed(n[j], Passes(actions, j), last[j])
  }

  /**
   Take any run of the network in which, from moment `k` on, the router of
   greatest rank is master and is not reloaded, and every other router is a
   backup that hears some acceptable advertisement less than three intervals
   after the previous one, and no resignation. Then at every later moment
   there is exactly one master, and it is that router.
   */
  lemma ExactlyOneMaster(trace: seq<Net>, actions: seq<Action>, l: nat, p: byte, k: nat, m: nat, last: seq<int>)
    requires IsRun(trace, actions, l, p) && InitialNet(trace[0], l, p)
    requires k <= m <= |actions| && l < |trace[k]| && trace[k][l].state == MASTER
    requires forall t :: k <= t < |actions| && actions[t].node == l ==> Harmless(actions[t].input)
    requires AllFed(trace[k], l, actions[k..m], last)
    ensures OnlyMaster(trace[m], l, |trace[k]|)
  {
    hide InitialNet, Led, Obeys, Act, Harmless, Fed, Step, Coupled, HooksOk, PacketsOk, IntervalOk;
    InitialIsLed(trace[0], l, p);
    RunSize(trace, actions, l, p, k);
    RunSize(trace, actions, l, p, m);
    forall j | 0 <= j < |trace[m]|
      ensures trace[m][j].state == if j == l then MASTER else BACKUP
    {
      if j == l {
        StableLeader(trace, actions, l, p, k, m);
      } else {
        NodeView(trace, actions, l, p, k, m, j);
        var xs := Passes(actions[k..m], j);
        NoTakeover(trace[k][j], xs, last[j], |xs|);
        assert xs[..|xs|] == xs;
      }
    }
  }

  /** `l` is master and none of the other `size - 1` nodes is. */
  predicate OnlyMaster(n: Net, l: nat, size: nat) {
    |n| == size && forall j :: 0 <= j < |n| ==> n[j].state == if j == l then MASTER else BACKUP
  }

  lemma {:induction false} RunSize(trace: seq<Net>, actions: seq<Action>, l: nat, p: byte, k: nat)
    requires IsRun(trace, actions, l, p) && k < |trace|
    ensures |trace[k]| == |trace[0]|
  {
    hide Step;
    if k > 0 {
      RunSize(trace, actions, l, p, k - 1);
      assert trace[k] == Act(trace[k - 1], actions[k - 1]);
    }
  }
}
