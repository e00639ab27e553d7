/**
 Theorems about every run of one instance, from start to shutdown.
 */
module Lifetime {
  import opened Bytes
  import opened Advert
  import opened Buffers
  import opened Receive
  import opened Timers
  import opened Machine
  import opened Runs
  import opened Wire

  predicate AllValid(inputs: seq<Input>) {
    forall k :: 0 <= k < |inputs| ==> inputs[k].Valid()
  }

  /** The invariant holds after any number of passes. */
  lemma {:induction false} LoopKeeps(s: Instance, inputs: seq<Input>)
    requires Inv(s) && AllValid(inputs)
    ensures Inv(Loop(s, inputs))
    decreases inputs
  {
    hide Coupled, HooksOk, PacketsOk, IntervalOk, Step;
    if inputs != [] && TestBit(s.reg, KEEP_GOING) && !s.exited {
      StepKeeps(s, inputs[0]);
      LoopKeeps(Step(s, inputs[0]), inputs[1..]);
    }
  }

  /**
   In every reachable state the running timer is the one of the state, so the
   wait is always for that timer and the exit for want of one is not taken.
   */
  lemma TimerBelongsToState(s0: Instance, inputs: seq<Input>)
    requires Initial(s0) && AllValid(inputs)
    ensures var s := Loop(s0, inputs);
            && Coupled(s) && !s.exited
            && (s.state == BACKUP ==> Awaited(s) == OnDown)
            && (s.state == MASTER ==> Awaited(s) == OnAdv)
  {
    InitialInv(s0);
    LoopKeeps(s0, inputs);
  }

  /**
   Calls of the script for "master" and "backup" alternate, "master" first,
   and the virtual interface exists exactly while the instance is master.
   */
  lemma InterfaceWhileMaster(s0: Instance, inputs: seq<Input>)
    requires Initial(s0) && AllValid(inputs)
    ensures var s := Loop(s0, inputs);
            Alternates(Switches(s.hooks)) && (InterfaceUp(s.hooks) <==> s.state == MASTER)
  {
    InitialInv(s0);
    LoopKeeps(s0, inputs);
    InterfaceParity(Loop(s0, inputs).hooks);
  }

  /**
   Between passes the prepared packet decodes to an advertisement of the
   current priority and passes the standard's checksum test, whatever commands
   and resignations came before; and every frame ever sent is, octet for octet,
   what the RFCs put on the wire for its priority.
   */
  lemma PacketsAlwaysGood(s0: Instance, inputs: seq<Input>)
    requires Initial(s0) && AllValid(inputs)
    ensures var s := Loop(s0, inputs);
            && s.adv[2] == s.priority && OnTheWire(s.cfg, s.priority, Announcement(s))
            && Verifies(s.cfg, s.adv, s.cfg.addr, Group(s.cfg.family))
            && forall k :: 0 <= k < |s.sent| ==>
                 |s.sent[k].adv| == s.cfg.Size() && OnTheWire(s.cfg, s.sent[k].adv[2], s.sent[k])
  {
    hide Verifies, Prepared, IpHeader, OnTheWire, Step;
    InitialInv(s0);
    LoopKeeps(s0, inputs);
    var s := Loop(s0, inputs);
    PreparedFacts(s.cfg, s.priority, s.adv);
    PreparedOnTheWire(s.cfg, s.priority, s.adv);
    forall k | 0 <= k < |s.sent|
      ensures |s.sent[k].adv| == s.cfg.Size() && OnTheWire(s.cfg, s.sent[k].adv[2], s.sent[k])
    {
      PreparedOnTheWire(s.cfg, s.sent[k].adv[2], s.sent[k].adv);
    }
  }

  /**
   Any frame sent in any run, read by a peer at any later time, is accepted
   exactly when the peer's interval is the low octet of this one's and the
   peer is not the owner, has room for the frame and allows that many
   addresses; the peer then reads the priority in the frame, and this
   instance's interval and address.
   */
  lemma SentFramesAreAccepted(s0: Instance, inputs: seq<Input>, k: nat, b: Config, prio: byte, d: Datagram, r: Received)
    requires Initial(s0) && AllValid(inputs) && k < |Loop(s0, inputs).sent|
    requires SameRouter(s0.cfg, b) && RealSource(s0.cfg)
    requires Delivers(b.family, Loop(s0, inputs).sent[k], d)
    ensures Filter(b, prio, d) == PKT
            <==> s0.cfg.advInt % 256 == b.advInt && prio != OWNER && d.len <= b.mtu && (b.family.V6? ==> |b.vips| <= 64)
    ensures Filter(b, prio, d) == PKT ==>
              var f, q := Loop(s0, inputs).sent[k], Stored(b, prio, d, r);
              && |f.adv| > 2 && q.priority == f.adv[2] && q.src == s0.cfg.addr
              && AdvIntOf(q) == if b.version == 3 then s0.cfg.advInt else b.advInt
  {
    hide Prepared, Filter, Stored, IpHeader, Delivers, Step;
    InitialInv(s0);
    LoopKeeps(s0, inputs);
    var f := Loop(s0, inputs).sent[k];
    RoundTrip(s0.cfg, b, f.adv[2], f.adv, prio, d, r);
  }

  // ----- commands and signals -----

  /** No timer runs out during this pass. */
  predicate InTime(s: Instance, i: Input) {
    !Expired(AwaitedDeadline(s), i.t0) && (i.wake.Ready? ==> !ExpiredCheck(AwaitedDeadline(s), i.t1))
  }

  /** Signals: exactly HUP and TERM lead back to INIT, and exactly TERM ends the loop. */
  lemma SignalPass(s: Instance, i: Input)
    requires Inv(s) && i.Valid() && s.state != INIT && i.wake.Signals? && InTime(s, i)
    ensures var r := Step(s, i);
            && (r.state == INIT <==> SigHup in i.wake.sigs || SigTerm in i.wake.sigs)
            && (r.state != INIT ==> r.state == s.state && r.sent == s.sent)
            && (TestBit(r.reg, KEEP_GOING) <==> SigTerm !in i.wake.sigs)
            && r.priority == s.priority && r.adv == s.adv
  {
    hide Prepared, IpHeader, HandleSignals, ZeroAdvert, FrameOf, HooksOk;
    SignalFlags(s.reg, i.wake.sigs);
  }

  predicate IsCommand(cmd: Command, word: string) {
    cmd.Command? && cmd.words != [] && cmd.words[0] == word
  }

  predicate AsksPriority(cmd: Command) {
    IsCommand(cmd, "prio") && |cmd.words| == 2 && cmd.argument.Number?
  }

  /** What each command asks for, flag by flag, and which are recognised at all. */
  lemma CommandFlags(s: Instance, cmd: Command)
    requires s.Valid()
    ensures var (r, ev) := Control(s, cmd);
            && (TestBit(r.reg, RELOAD) <==> TestBit(s.reg, RELOAD) || IsCommand(cmd, "stop")
                                            || IsCommand(cmd, "reload") || AsksPriority(cmd))
            && (TestBit(r.reg, KEEP_GOING) <==> TestBit(s.reg, KEEP_GOING) && !IsCommand(cmd, "stop"))
            && (TestBit(r.reg, DUMP) <==> TestBit(s.reg, DUMP) || IsCommand(cmd, "state") || IsCommand(cmd, "status"))
            && (TestBit(r.reg, LOGOUT) <==> TestBit(s.reg, LOGOUT))
            && ev == if IsCommand(cmd, "stop") || IsCommand(cmd, "reload") || IsCommand(cmd, "state")
                        || IsCommand(cmd, "status") || AsksPriority(cmd)
                     then CTRL_FIFO else INVALID
  {
    hide Seal;
  }

  /**
   Commands: "stop" ends the loop from INIT, "reload" and a well-formed "prio"
   go back to INIT, the latter with the new priority already in the prepared
   packet; anything else leaves state, timers, packet and wire alone.
   */
  lemma CommandPass(s: Instance, i: Input)
    requires Inv(s) && i.Valid() && s.state != INIT && InTime(s, i)
    requires i.wake.Ready? && i.wake.socket.None? && i.wake.fifo.Some?
    ensures var r, cmd := Step(s, i), i.wake.fifo.value;
            && (TestBit(r.reg, KEEP_GOING) <==> !IsCommand(cmd, "stop"))
            && (r.state == INIT <==> IsCommand(cmd, "stop") || IsCommand(cmd, "reload") || AsksPriority(cmd))
            && r.priority == (if AsksPriority(cmd) then cmd.argument.value else s.priority)
            && Prepared(r.cfg, r.priority, r.adv)
            && (r.state != INIT ==>
                  && r.state == s.state && r.advTimer == s.advTimer && r.downTimer == s.downTimer
                  && r.adv == s.adv && r.sent == s.sent && r.hooks == s.hooks)
  {
    hide Prepared, IpHeader, Seal, ZeroAdvert, FrameOf, HooksOk;
    ControlHeard(s, i.wake.fifo.value);
  }

  // ----- intervals -----

  lemma SkewBounds(s: Instance)
    requires s.cfg.version == 2 || s.cfg.version == 3
    ensures s.masterAdvInt >= 1 ==> SkewTime(s) <= s.masterAdvInt
    ensures s.cfg.version == 2 ==> SkewTime(s) == if s.priority == 0 then 1 else 0
  {
    var p, m: int := 256 - s.priority, s.masterAdvInt;
    assert p * m <= 256 * m by {
      assert (256 - p) * m >= 0;
    }
  }

  /** Version 2 never learns an interval; version 3 learns one congruent to its own. */
  lemma IntervalsInEveryRun(s0: Instance, inputs: seq<Input>)
    requires Initial(s0) && AllValid(inputs)
    ensures var s := Loop(s0, inputs);
            s.state != INIT ==>
              && (s.cfg.version == 2 ==> s.masterAdvInt == s.cfg.advInt)
              && (s.masterAdvInt == s.cfg.advInt || (s.cfg.advInt <= 255 && s.masterAdvInt % 256 == s.cfg.advInt))
              && 1 <= s.cfg.advInt <= s.masterAdvInt
              && 3 * s.masterAdvInt <= MasterdownInt(s) <= 4 * s.masterAdvInt
  {
    InitialInv(s0);
    LoopKeeps(s0, inputs);
    SkewBounds(Loop(s0, inputs));
  }

  /**
   Version 3: of two backups armed at the same instant with the same
   interval, the one of higher priority does not expire later, and expires
   strictly earlier once the priorities are far enough apart.
   */
  lemma HigherPriorityExpiresFirst(s: Instance, t: Instance, now: Timespec)
    requires s.cfg.version == t.cfg.version == 3 && s.masterAdvInt == t.masterAdvInt
    requires s.priority > t.priority
    ensures var ds, dt := Deadline(now, 3, MasterdownInt(s)), Deadline(now, 3, MasterdownInt(t));
            && Nanos(ds) <= Nanos(dt)
            && ((s.priority - t.priority) * s.masterAdvInt >= 256 ==> Nanos(ds) < Nanos(dt))
  {
    var p, q, m: int := 256 - s.priority, 256 - t.priority, s.masterAdvInt;
    assert q * m - p * m == (q - p) * m >= 0;
  }

  // ----- shutdown -----

  /** A valid advertisement of priority 0 from this instance. */
  predicate ZeroFrame(c: Config, f: Frame)
    requires c.Valid()
  {
    f.ip == IpHeader(c) && |f.adv| == c.Size() && f.adv[2] == 0 && Verifies(c, f.adv, c.addr, Group(c.family))
  }

  /**
   Leaving MASTER for INIT sends exactly one packet: a valid advertisement of
   priority 0.
   */
  lemma Resignation(s: Instance, i: Input)
    requires Inv(s) && i.Valid() && TestBit(s.reg, KEEP_GOING) && s.state == MASTER && Step(s, i).state == INIT
    ensures var r := Step(s, i);
            |r.sent| == |s.sent| + 1 && r.sent[..|s.sent|] == s.sent && ZeroFrame(s.cfg, r.sent[|s.sent|])
  {
    hide Prepared, IpHeader, Verifies, ZeroAdvert, Listen, GotoBackup, SetAdvTimer;
    ListenHeard(s, i);
    var l := Listen(s, i).0;
    ZeroAdvertOk(l.(reg := ClearBit(l.reg, RELOAD), advTimer := ZERO));
    var f := Frame(IpHeader(s.cfg), ZeroAdvert(l.(reg := ClearBit(l.reg, RELOAD), advTimer := ZERO)));
    ResignationPacket(s, l, Listen(s, i).1, i.t2);
    PreparedFacts(s.cfg, 0, f.adv);
  }

  lemma ResignationPacket(s: Instance, l: Instance, ev: Event, now: Timespec)
    requires Core(s) && s.state == MASTER && Heard(s, l, ev) && ClockReading(now)
    requires MasterOn(l, ev, now).state == INIT
    ensures MasterOn(l, ev, now).sent
            == s.sent + [Frame(IpHeader(s.cfg), ZeroAdvert(l.(reg := ClearBit(l.reg, RELOAD), advTimer := ZERO)))]
  {
    hide Prepared, IpHeader, ZeroAdvert;
  }

  /** Pass `k` is the one that ends the run. */
  predicate LastPass(s0: Instance, inputs: seq<Input>, k: nat)
    requires s0.Valid() && AllValid(inputs) && k < |inputs|
  {
    var p := Loop(s0, inputs[..k]);
    TestBit(p.reg, KEEP_GOING) && Loop(s0, inputs) == Step(p, inputs[k])
  }

  lemma {:induction false} FindLastPass(s: Instance, inputs: seq<Input>) returns (k: nat)
    requires Inv(s) && AllValid(inputs) && TestBit(s.reg, KEEP_GOING)
    requires !TestBit(Loop(s, inputs).reg, KEEP_GOING)
    ensures k < |inputs| && LastPass(s, inputs, k)
    decreases inputs
  {
    hide Step, Coupled, HooksOk, PacketsOk, IntervalOk;
    var s1 := Step(s, inputs[0]);
    StepKeeps(s, inputs[0]);
    if TestBit(s1.reg, KEEP_GOING) {
      var j := FindLastPass(s1, inputs[1..]);
      k := j + 1;
      assert inputs[..k][0] == inputs[0] && inputs[..k][1..] == inputs[1..][..j];
    } else {
      k := 0;
      assert inputs[..0] == [];
    }
  }

  /**
   Every run that leaves the main loop ends in INIT with both timers clear,
   no reload pending and the interface gone; and if its last pass began as
   master, the last packet sent is a valid advertisement of priority 0.
   */
  lemma CleanShutdown(s0: Instance, inputs: seq<Input>) returns (k: nat)
    requires Initial(s0) && AllValid(inputs) && !TestBit(Loop(s0, inputs).reg, KEEP_GOING)
    ensures var s := Loop(s0, inputs);
            s.state == INIT && s.advTimer == s.downTimer == ZERO && !TestBit(s.reg, RELOAD) && !InterfaceUp(s.hooks)
    ensures k < |inputs| && LastPass(s0, inputs, k)
    ensures var s, p := Loop(s0, inputs), Loop(s0, inputs[..k]);
            p.state == MASTER ==>
              |s.sent| == |p.sent| + 1 && ZeroFrame(s.cfg, s.sent[|p.sent|])
  {
    hide ZeroFrame, Step;
    InitialInv(s0);
    LoopKeeps(s0, inputs);
    InterfaceWhileMaster(s0, inputs);
    k := FindLastPass(s0, inputs);
    LoopKeeps(s0, inputs[..k]);
    var p := Loop(s0, inputs[..k]);
    if p.state == MASTER {
      Resignation(p, inputs[k]);
    }
  }
}
