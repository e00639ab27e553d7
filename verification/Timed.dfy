/**
 The backup's clock: when it takes over, and when it cannot.
 */
module Timed {
  import opened Bytes
  import opened Address
  import opened Advert
  import opened Buffers
  import opened Receive
  import opened Timers
  import opened Machine
  import opened Runs
  import opened Lifetime

  /** What one pass does to a backup. */
  datatype Outcome = Takeover | Rearmed | Hurried | Reloaded | Ignored

  /** The deadline is found to have passed, before or after waiting. */
  predicate TimesOut(s: Instance, i: Input) {
    Expired(s.downTimer, i.t0) || (i.wake.Ready? && ExpiredCheck(s.downTimer, i.t1))
  }

  /** The units between two advertisements: version 3 uses the learned interval. */
  function AdvertUnits(s: Instance): nat {
    if s.cfg.version == 3 then s.masterAdvInt else s.cfg.advInt
  }

  function OutcomeOf(s: Instance, i: Input): Outcome
    requires s.Valid() && i.Valid()
  {
    var l := Listen(s, i);
    if l.1 == TIMER then Takeover
    else if l.1 == PKT && l.0.pkt.versionType != 0 then
      if l.0.pkt.priority == 0 then Hurried
      else if !s.cfg.preempt || l.0.pkt.priority >= s.priority then Rearmed
      else Ignored
    else if (l.1 == SIGNAL || l.1 == CTRL_FIFO) && TestBit(l.0.reg, RELOAD) then Reloaded
    else Ignored
  }

  /**
   A backup becomes master exactly when its deadline has passed; otherwise the
   deadline moves only to "now plus the interval in force", or to "now plus
   the skew" after a resignation.
   */
  lemma BackupPass(s: Instance, i: Input)
    requires Inv(s) && i.Valid() && s.state == BACKUP
    ensures var r := Step(s, i);
            && (r.state == MASTER <==> TimesOut(s, i))
            && (OutcomeOf(s, i) == Takeover <==> TimesOut(s, i))
            && (OutcomeOf(s, i) == Takeover ==>
                  r.sent == s.sent + [Announcement(s)] && r.advTimer == Deadline(i.t2, s.cfg.version, AdvertUnits(s)))
            && (OutcomeOf(s, i) == Rearmed ==>
                  && r.state == BACKUP && r.downTimer == Deadline(i.t2, s.cfg.version, MasterdownInt(r))
                  && r.masterAdvInt == if s.cfg.version == 3 then AdvIntOf(Listen(s, i).0.pkt) else s.masterAdvInt)
            && (OutcomeOf(s, i) == Hurried ==>
                  r.state == BACKUP && r.downTimer == Deadline(i.t2, s.cfg.version, SkewTime(r)))
            && (OutcomeOf(s, i) == Reloaded ==> r.state == INIT && r.masterAdvInt == s.masterAdvInt)
            && (OutcomeOf(s, i) != Takeover ==> r.sent == s.sent)
            && (OutcomeOf(s, i) == Ignored ==>
                  r.state == BACKUP && r.downTimer == s.downTimer && r.masterAdvInt == s.masterAdvInt)
  {
    hide Prepared, IpHeader, Filter, Stored, Control, HandleSignals, AdvIntOf, Heard;
    ListenTimer(s, i);
    ListenKeepsTimers(s, i);
  }

  lemma ListenTimer(s: Instance, i: Input)
    requires Inv(s) && i.Valid() && s.state == BACKUP
    ensures Listen(s, i).1 == TIMER <==> TimesOut(s, i)
  {
    hide Prepared, IpHeader, Stored, HandleSignals, Filter, Acceptable, WellFramed;
    if i.wake.Ready? && i.wake.socket.Some? {
      FilterExact(s.cfg, s.priority, i.wake.socket.value);
    }
  }

  lemma ListenKeepsTimers(s: Instance, i: Input)
    requires Inv(s) && i.Valid() && s.state == BACKUP
    ensures var l := Listen(s, i).0;
            && l.cfg == s.cfg && l.state == s.state && l.downTimer == s.downTimer && l.masterAdvInt == s.masterAdvInt
            && l.sent == s.sent
    ensures Listen(s, i).1 != NO_TIMER
    ensures Listen(s, i).1 == PKT ==> Listen(s, i).0.priority == s.priority
    ensures Listen(s, i).1 == TIMER ==> Listen(s, i).0 == s
  {
    hide Prepared, IpHeader, Stored, HandleSignals, Filter, Acceptable, WellFramed, Seal, AdvIntOf;
    ListenHeard(s, i);
    if i.wake.Ready? && i.wake.socket.Some? {
      FilterExact(s.cfg, s.priority, i.wake.socket.value);
    }
  }

  /** The interval that a packet announces, in units of its version. */
  function AnnouncedUnits(c: Config, pkt: seq<byte>): word
    requires c.Valid() && |pkt| == c.Size()
  {
    if c.version == 3 then Load16(Big, pkt[4], pkt[5]) else pkt[5]
  }

  /**
   A master repeats its announcement when its advertisement timer runs out, and
   rearms the timer with the interval it announces exactly when it has learned
   no other one (version 3), or when its interval fits the octet that announces
   it (version 2).
   */
  lemma MasterPass(s: Instance, i: Input)
    requires Inv(s) && i.Valid() && s.state == MASTER
    requires Expired(s.advTimer, i.t0) || (i.wake.Ready? && ExpiredCheck(s.advTimer, i.t1))
    ensures var r := Step(s, i);
            && r.state == MASTER && r.sent == s.sent + [Announcement(s)] && r.hooks == s.hooks
            && r.advTimer == Deadline(i.t2, s.cfg.version, AdvertUnits(s))
            && (r.advTimer == Deadline(i.t2, s.cfg.version, AnnouncedUnits(s.cfg, s.adv))
                <==> if s.cfg.version == 3 then s.masterAdvInt == s.cfg.advInt else s.cfg.advInt <= 255)
  {
    hide Prepared, IpHeader;
    HeaderOctets(s.cfg, s.priority, s.adv);
  }

  /** A pass that ends in MASTER either announces the instance and arms the timer anew, or leaves both alone. */
  lemma AnnouncingPass(s: Instance, i: Input)
    requires Inv(s) && i.Valid() && Step(s, i).state == MASTER
    ensures var r := Step(s, i);
            if |r.sent| > |s.sent| then
              r.sent == s.sent + [Announcement(s)] && r.advTimer == Deadline(i.t2, s.cfg.version, AdvertUnits(r))
            else s.state == MASTER && r.sent == s.sent && r.advTimer == s.advTimer
  {
    hide Prepared, IpHeader, Listen, AdvIntOf, AddrCmp, FrameOf, HooksOk, ZeroAdvert, Deadline;
    if s.state != INIT {
      ListenHeard(s, i);
      ListenKeepsAdvert(s, i);
    }
  }

  lemma ListenKeepsAdvert(s: Instance, i: Input)
    requires s.Valid() && i.Valid()
    ensures Listen(s, i).1 == TIMER || Listen(s, i).1 == PKT ==> Listen(s, i).0.adv == s.adv
  {
    hide Stored, HandleSignals, Filter, Acceptable, WellFramed, Seal;
    if i.wake.Ready? && i.wake.socket.Some? {
      FilterExact(s.cfg, s.priority, i.wake.socket.value);
    }
  }

  /** Leaving INIT: the owner announces itself at once, any other router starts to wait. */
  lemma InitPass(s: Instance, i: Input)
    requires Inv(s) && i.Valid() && s.state == INIT
    ensures var r := Step(s, i);
            && r.masterAdvInt == s.cfg.advInt
            && (s.priority == OWNER ==>
                  && r.state == MASTER && r.sent == s.sent + [Announcement(s)]
                  && r.advTimer == Deadline(i.t2, s.cfg.version, s.cfg.advInt))
            && (s.priority != OWNER ==>
                  var units: nat := if s.cfg.startDelay != 0 then s.cfg.startDelay else MasterdownInt(r);
                  r.state == BACKUP && r.sent == s.sent && r.downTimer == Deadline(i.t2, s.cfg.version, units))
  {
    hide Prepared, IpHeader;
  }

  /** A master that steps down starts to wait for the interval it has just learned. */
  lemma StepDown(s: Instance, i: Input)
    requires Inv(s) && i.Valid() && s.state == MASTER && Step(s, i).state == BACKUP
    ensures var r := Step(s, i);
            r.downTimer == Deadline(i.t2, s.cfg.version, MasterdownInt(r)) && r.sent == s.sent
  {
    hide Prepared, IpHeader, Listen, AdvIntOf, AddrCmp, FrameOf, HooksOk;
    ListenHeard(s, i);
  }

  // ----- what each input does -----

  /** The input asks the instance to go back to INIT. */
  predicate AsksReload(i: Input) {
    match i.wake
    case Signals(sigs) => SigHup in sigs || SigTerm in sigs
    case SelectError => false
    case Ready(socket, fifo) =>
      socket.None? && fifo.Some?
      && (IsCommand(fifo.value, "stop") || IsCommand(fifo.value, "reload") || AsksPriority(fifo.value))
  }

  /** The input brings a datagram that is acceptable. */
  predicate BringsPacket(s: Instance, i: Input)
    requires s.Valid() && i.Valid()
  {
    i.wake.Ready? && i.wake.socket.Some? && Acceptable(s.cfg, s.priority, i.wake.socket.value)
  }

  /** What the wait reports, in terms of the clock and of what comes in. */
  lemma ListenByInput(s: Instance, i: Input)
    requires Inv(s) && i.Valid() && s.state != INIT
    ensures var (l, ev) := Listen(s, i);
            && (ev == TIMER <==> !InTime(s, i))
            && (ev == PKT <==> InTime(s, i) && BringsPacket(s, i))
            && (ev == PKT ==>
                  var d := i.wake.socket.value;
                  var p := Octets(s.cfg, d);
                  l == s.(pkt := Received(Source(s.cfg, d), p[0], p[2], p[4], p[5])) && p[0] != 0)
            && ((ev == SIGNAL || ev == CTRL_FIFO) && TestBit(l.reg, RELOAD) <==> InTime(s, i) && AsksReload(i))
            && l.state == s.state && l.sent == s.sent && l.hooks == s.hooks
            && l.advTimer == s.advTimer && l.downTimer == s.downTimer && l.masterAdvInt == s.masterAdvInt
            && (ev == TIMER ==> l == s) && ev != NO_TIMER
            && !(TestBit(l.reg, RELOAD) && ev != SIGNAL && ev != CTRL_FIFO)
  {
    hide Prepared, Control, Stored, Filter, Acceptable, AsksPriority, IsCommand, Octets, Source, HooksOk, FrameOf;
    ListenHeard(s, i);
    match i.wake
    case Signals(sigs) => SignalFlags(s.reg, sigs);
    case SelectError =>
    case Ready(socket, fifo) =>
      if socket.Some? {
        FilterExact(s.cfg, s.priority, socket.value);
        BufferAfterRead(s.cfg, s.priority, socket.value, s.pkt);
      } else if fifo.Some? {
        CommandFlags(s, fifo.value);
      }
  }

  /** What one pass does to a master. */
  datatype Answer = Repeats | Defends | Yields | Resigns | Abides

  /** Read off the input: the timer first, then packets by priority and address, then reloads. */
  function AnswerTo(s: Instance, i: Input): Answer
    requires s.Valid() && i.Valid()
  {
    if !InTime(s, i) then Repeats
    else if BringsPacket(s, i) then
      var d := i.wake.socket.value;
      var prio := Octets(s.cfg, d)[2];
      if prio == 0 then Defends
      else if prio > s.priority || (prio == s.priority && AddrCmp(s.cfg.family, Source(s.cfg, d), s.cfg.addr) > 0)
      then Yields else Abides
    else if AsksReload(i) then Resigns
    else Abides
  }

  /**
   Exactly what makes a master send, yield or resign. It announces itself when
   its timer has run out, and at once when it reads a resignation, and both
   times rearms its timer; it yields to a packet of higher rank without a word;
   it resigns with one packet of priority 0 when it is told to reload; and
   nothing else has any effect on state, timer, wire or interval.
   */
  lemma MasterPassExact(s: Instance, i: Input)
    requires Inv(s) && i.Valid() && s.state == MASTER
    ensures var r, a := Step(s, i), AnswerTo(s, i);
            && r.state == (match a case Yields => BACKUP case Resigns => INIT case _ => MASTER)
            && (a == Repeats || a == Defends ==>
                  && r.sent == s.sent + [Announcement(s)]
                  && r.advTimer == Deadline(i.t2, s.cfg.version, AdvertUnits(s)))
            && (a == Yields ==> r.sent == s.sent)
            && (a == Resigns ==>
                  |r.sent| == |s.sent| + 1 && r.sent[..|s.sent|] == s.sent && ZeroFrame(s.cfg, r.sent[|s.sent|]))
            && (a == Abides ==> r.sent == s.sent && r.advTimer == s.advTimer)
            && (a != Yields ==> r.masterAdvInt == s.masterAdvInt)
  {
    hide Prepared, IpHeader, Listen, AdvIntOf, AddrCmp, FrameOf, HooksOk, ZeroAdvert, Deadline, InTime, BringsPacket,
         AsksReload, Octets, Source, ZeroFrame;
    ListenByInput(s, i);
    ListenHeard(s, i);
    ListenKeepsAdvert(s, i);
    if AnswerTo(s, i) == Resigns {
      Resignation(s, i);
    }
  }

  /** Which input leads to which outcome for a backup. */
  lemma OutcomeByInput(s: Instance, i: Input)
    requires Inv(s) && i.Valid() && s.state == BACKUP
    ensures OutcomeOf(s, i)
            == if !InTime(s, i) then Takeover
               else if BringsPacket(s, i) then
                 var prio := Octets(s.cfg, i.wake.socket.value)[2];
                 if prio == 0 then Hurried else if !s.cfg.preempt || prio >= s.priority then Rearmed else Ignored
               else if AsksReload(i) then Reloaded else Ignored
  {
    hide Prepared, IpHeader, Listen, FrameOf, HooksOk, InTime, BringsPacket, AsksReload, Octets, Source;
    ListenByInput(s, i);
  }

  // ----- the hook script -----

  /** The calls that go with a change of state. */
  function CallsFor(before: State, after: State): seq<Hook> {
    match (before, after)
    case (INIT, BACKUP) => [HookInit]
    case (INIT, MASTER) => [HookInit, HookMaster]
    case (BACKUP, MASTER) => [HookMaster]
    case (MASTER, BACKUP) => [HookBackup]
    case (MASTER, INIT) => [HookBackup]
    case _ => []
  }

  /** A pass calls the script for what it changes, and for nothing else; it never stays in INIT. */
  lemma HooksPass(s: Instance, i: Input)
    requires Inv(s) && i.Valid()
    ensures Step(s, i).hooks == s.hooks + CallsFor(s.state, Step(s, i).state)
    ensures s.state == INIT ==> Step(s, i).state == if s.priority == OWNER then MASTER else BACKUP
  {
    hide Prepared, IpHeader, Listen, AdvIntOf, AddrCmp, FrameOf, Switches, ZeroAdvert, Deadline, SkewTime;
    if s.state != INIT {
      ListenHeard(s, i);
    }
  }

  // ----- the interval in force -----

  /** A version 3 pass that takes over the interval of the packet it has read. */
  predicate Learns(s: Instance, i: Input)
    requires s.Valid() && i.Valid()
  {
    && s.cfg.version == 3
    && ((s.state == BACKUP && OutcomeOf(s, i) == Rearmed) || (s.state == MASTER && Step(s, i).state == BACKUP))
  }

  /** The octet above the one that the filter compares. */
  function HighOctet(s: Instance, i: Input): byte
    requires s.Valid() && i.Valid()
  {
    if i.wake.Ready? && i.wake.socket.Some? then Payload(s.cfg, i.wake.socket.value)[4] else 0
  }

  /** One pass changes the interval in force exactly by learning one. */
  lemma IntervalPass(s: Instance, i: Input)
    requires Inv(s) && i.Valid() && s.state != INIT && Step(s, i).state != INIT
    ensures Learns(s, i) ==>
              && Listen(s, i).1 == PKT && Step(s, i).masterAdvInt == AdvIntOf(Listen(s, i).0.pkt)
              && (Step(s, i).masterAdvInt == s.cfg.advInt <==> HighOctet(s, i) == 0)
    ensures !Learns(s, i) ==> Step(s, i).masterAdvInt == s.masterAdvInt
  {
    hide Prepared, IpHeader, Listen, AdvIntOf, AddrCmp, FrameOf, HooksOk, HighOctet;
    ListenHeard(s, i);
    if Listen(s, i).1 == PKT && s.cfg.version == 3 {
      LearnedOctets(s, i);
    }
  }

  lemma LearnedOctets(s: Instance, i: Input)
    requires s.Valid() && i.Valid() && Listen(s, i).1 == PKT && s.cfg.version == 3
    ensures AdvIntOf(Listen(s, i).0.pkt) == s.cfg.advInt <==> HighOctet(s, i) == 0
  {
    hide PacketChecks, HandleSignals, Seal, Verifies, AdvIntOf, Expired, ExpiredCheck;
    ListenPacketStored(s, i);
    AcceptanceMeans(s.cfg, s.priority, i.wake.socket.value, s.pkt);
  }

  lemma ListenPacketStored(s: Instance, i: Input)
    requires s.Valid() && i.Valid() && Listen(s, i).1 == PKT
    ensures i.wake.Ready? && i.wake.socket.Some? && Filter(s.cfg, s.priority, i.wake.socket.value) == PKT
    ensures Listen(s, i).0 == s.(pkt := Stored(s.cfg, s.priority, i.wake.socket.value, s.pkt))
  {
    hide Filter, Stored, HandleSignals, Seal, Expired, ExpiredCheck;
  }

  /** The successive states of a run from the start, one pass after the other. */
  predicate IsTrace(trace: seq<Instance>, inputs: seq<Input>) {
    && |trace| == |inputs| + 1 && AllValid(inputs) && Initial(trace[0])
    && forall k :: 0 <= k < |inputs| ==>
         trace[k].Valid() && TestBit(trace[k].reg, KEEP_GOING) && trace[k + 1] == Step(trace[k], inputs[k])
  }

  lemma {:induction false} TraceInv(trace: seq<Instance>, inputs: seq<Input>, k: nat)
    requires IsTrace(trace, inputs) && k <= |inputs|
    ensures Inv(trace[k])
  {
    hide Inv, Step, Initial;
    if k == 0 {
      InitialInv(trace[0]);
    } else {
      TraceInv(trace, inputs, k - 1);
      StepKeeps(trace[k - 1], inputs[k - 1]);
    }
  }

  /** The calls that go with the first `n` passes of a run. */
  function CallsOf(trace: seq<Instance>, n: nat): seq<Hook>
    requires n < |trace|
  {
    if n == 0 then [] else CallsOf(trace, n - 1) + CallsFor(trace[n - 1].state, trace[n].state)
  }

  /** In every run the calls of the script are those of the states it went through, in order. */
  lemma {:induction false} HooksFollowStates(trace: seq<Instance>, inputs: seq<Input>, n: nat)
    requires IsTrace(trace, inputs) && n <= |inputs|
    ensures trace[n].hooks == CallsOf(trace, n)
  {
    hide Inv, Step, Prepared, CallsFor;
    if n > 0 {
      HooksFollowStates(trace, inputs, n - 1);
      TraceInv(trace, inputs, n - 1);
      HooksPass(trace[n - 1], inputs[n - 1]);
    }
  }

  function InitCalls(hooks: seq<Hook>): nat {
    if hooks == [] then 0 else InitCalls(hooks[..|hooks| - 1]) + (if hooks[|hooks| - 1].HookInit? then 1 else 0)
  }

  function InitPasses(trace: seq<Instance>, n: nat): nat
    requires n < |trace|
  {
    if n == 0 then 0 else InitPasses(trace, n - 1) + (if trace[n - 1].state == INIT then 1 else 0)
  }

  lemma InitCallsAppend(hooks: seq<Hook>, h: Hook)
    ensures InitCalls(hooks + [h]) == InitCalls(hooks) + (if h.HookInit? then 1 else 0)
  {
    assert (hooks + [h])[..|hooks|] == hooks;
  }

  /** The script is called with "init" once for each pass that begins in INIT. */
  lemma {:induction false} InitHookPerInitPass(trace: seq<Instance>, inputs: seq<Input>, n: nat)
    requires IsTrace(trace, inputs) && n <= |inputs|
    ensures InitCalls(trace[n].hooks) == InitPasses(trace, n)
  {
    hide Inv, Step, Prepared, InitCalls;
    if n == 0 {
      assert InitCalls([]) == 0 by { NoInitCalls(); }
    } else {
      var before, after := trace[n - 1], trace[n];
      InitHookPerInitPass(trace, inputs, n - 1);
      TraceInv(trace, inputs, n - 1);
      HooksPass(before, inputs[n - 1]);
      InitCallsAppend(before.hooks, HookInit);
      InitCallsAppend(before.hooks + [HookInit], HookMaster);
      InitCallsAppend(before.hooks, HookMaster);
      InitCallsAppend(before.hooks, HookBackup);
      assert before.hooks + [HookInit, HookMaster] == before.hooks + [HookInit] + [HookMaster];
      assert before.hooks + [] == before.hooks;
    }
  }

  lemma NoInitCalls()
    ensures InitCalls([]) == 0
  {
  }

  /**
   Where the interval in force comes from, in every reachable state past INIT:
   from the configuration, or from the last packet learned -- and then it is
   the configured one exactly when the high octet of that packet is zero.
   */
  lemma {:induction false} IntervalOrigin(trace: seq<Instance>, inputs: seq<Input>, n: nat) returns (k: nat)
    requires IsTrace(trace, inputs) && n <= |inputs| && trace[n].state != INIT
    ensures k < n
    ensures if Learns(trace[k], inputs[k])
            then trace[n].masterAdvInt == trace[n].cfg.advInt <==> HighOctet(trace[k], inputs[k]) == 0
            else trace[k].state == INIT && trace[n].masterAdvInt == trace[n].cfg.advInt
    ensures trace[n].masterAdvInt == trace[k + 1].masterAdvInt
    ensures forall t :: k < t < n ==> trace[t].state != INIT && !Learns(trace[t], inputs[t])
  {
    hide Inv, Step, Learns, HighOctet, Prepared;
    TraceInv(trace, inputs, n - 1);
    if trace[n - 1].state == INIT {
      k := n - 1;
      InitPass(trace[k], inputs[k]);
      InitLearnsNothing(trace[k], inputs[k]);
    } else {
      IntervalPass(trace[n - 1], inputs[n - 1]);
      if Learns(trace[n - 1], inputs[n - 1]) {
        k := n - 1;
      } else {
        k := IntervalOrigin(trace, inputs, n - 1);
      }
    }
  }

  lemma InitLearnsNothing(s: Instance, i: Input)
    requires s.Valid() && i.Valid() && s.state == INIT
    ensures !Learns(s, i)
  {
  }

  /** A run that learns only packets whose high octet is zero keeps to its own interval throughout. */
  lemma OwnInterval(trace: seq<Instance>, inputs: seq<Input>, n: nat)
    requires IsTrace(trace, inputs) && n <= |inputs| && trace[n].state != INIT
    requires forall k :: 0 <= k < |inputs| && trace[k].Valid() && Learns(trace[k], inputs[k]) ==>
                           HighOctet(trace[k], inputs[k]) == 0
    ensures trace[n].masterAdvInt == trace[n].cfg.advInt
  {
    hide Step, Learns, HighOctet, Initial;
    var k := IntervalOrigin(trace, inputs, n);
  }

  // ----- where a deadline comes from -----

  /** The pass ends in BACKUP and has set the masterdown timer. */
  predicate Arms(s: Instance, i: Input)
    requires s.Valid() && i.Valid()
  {
    Step(s, i).state == BACKUP && (s.state == BACKUP ==> OutcomeOf(s, i) == Rearmed || OutcomeOf(s, i) == Hurried)
  }

  /** The wait that such a pass chooses. */
  function ArmedUnits(s: Instance, i: Input): nat
    requires s.Valid() && i.Valid()
  {
    var r := Step(s, i);
    match s.state
    case INIT => if s.cfg.startDelay != 0 then s.cfg.startDelay else MasterdownInt(r)
    case MASTER => MasterdownInt(r)
    case BACKUP => if OutcomeOf(s, i) == Hurried then SkewTime(r) else MasterdownInt(r)
  }

  /** A pass that ends in BACKUP either arms the timer or leaves timer and interval alone. */
  lemma ArmingPass(s: Instance, i: Input)
    requires Inv(s) && i.Valid() && Step(s, i).state == BACKUP
    ensures var r := Step(s, i);
            if Arms(s, i) then r.downTimer == Deadline(i.t2, s.cfg.version, ArmedUnits(s, i))
            else s.state == BACKUP && OutcomeOf(s, i) == Ignored
                 && r.downTimer == s.downTimer && r.masterAdvInt == s.masterAdvInt
  {
    hide Inv, Step, OutcomeOf, MasterdownInt, SkewTime, Deadline;
    match s.state
    case BACKUP => BackupPass(s, i);
    case MASTER => StepDown(s, i);
    case INIT => InitPass(s, i);
  }

  /**
   In every reachable backup state the deadline is the clock of one earlier
   pass plus the wait chosen at that pass: every pass in between ignored what
   it met.
   */
  lemma {:induction false} DeadlineOrigin(trace: seq<Instance>, inputs: seq<Input>, n: nat) returns (k: nat)
    requires IsTrace(trace, inputs) && n <= |inputs| && trace[n].state == BACKUP
    ensures k < n && Arms(trace[k], inputs[k])
    ensures trace[n].downTimer == Deadline(inputs[k].t2, trace[n].cfg.version, ArmedUnits(trace[k], inputs[k]))
    ensures trace[n].masterAdvInt == trace[k + 1].masterAdvInt
    ensures forall t :: k < t < n ==> trace[t].state == BACKUP && OutcomeOf(trace[t], inputs[t]) == Ignored
  {
    hide Inv, Step, Deadline, Prepared, Arms, ArmedUnits, OutcomeOf;
    TraceInv(trace, inputs, n - 1);
    ArmingPass(trace[n - 1], inputs[n - 1]);
    if Arms(trace[n - 1], inputs[n - 1]) {
      k := n - 1;
    } else {
      k := DeadlineOrigin(trace, inputs, n - 1);
    }
  }

  /** A resignation, or a start delay shorter than three intervals, cuts the wait short. */
  predicate CutsShort(s: Instance, i: Input)
    requires s.Valid() && i.Valid()
  {
    || (s.state == BACKUP && OutcomeOf(s, i) == Hurried)
    || (s.state == INIT && 0 < s.cfg.startDelay < 3 * s.cfg.advInt)
  }

  /** The wait is three intervals or more exactly when nothing cuts it short. */
  lemma FullWait(s: Instance, i: Input)
    requires Inv(s) && i.Valid() && TestBit(s.reg, KEEP_GOING) && Arms(s, i)
    ensures ArmedUnits(s, i) >= 3 * Step(s, i).masterAdvInt <==> !CutsShort(s, i)
  {
    hide Coupled, HooksOk, PacketsOk, Step, OutcomeOf, SkewTime, Deadline;
    var r := Step(s, i);
    StepKeeps(s, i);
    SkewBounds(r);
    if s.state == INIT {
      InitPass(s, i);
    }
  }

  // ----- no takeover while the master is heard -----

  /**
   Along the passes `inputs`, with the last rearming advertisement processed
   at instant `last`: at each pass less than three intervals have gone by
   since then, and no resignation and no reload comes in.
   */
  predicate Fed(s: Instance, inputs: seq<Input>, last: int)
    requires s.Valid() && AllValid(inputs)
    decreases inputs
  {
    inputs == [] ||
    var i := inputs[0];
    && Nanos(i.t1) < last + 3 * s.masterAdvInt * UnitOf(s.cfg.version)
    && OutcomeOf(s, i) != Hurried && OutcomeOf(s, i) != Reloaded
    && Fed(Step(s, i), inputs[1..], if OutcomeOf(s, i) == Rearmed then Nanos(i.t2) else last)
  }

  lemma RearmedLongEnough(s: Instance, now: Timespec)
    requires s.cfg.version == 2 || s.cfg.version == 3
    ensures Nanos(Deadline(now, s.cfg.version, MasterdownInt(s)))
            >= Nanos(now) + 3 * s.masterAdvInt * UnitOf(s.cfg.version)
  {
    hide Deadline, SkewTime;
    var u := UnitOf(s.cfg.version);
    DeadlineNanos(now, s.cfg.version, MasterdownInt(s));
    assert MasterdownInt(s) * u == 3 * s.masterAdvInt * u + SkewTime(s) * u;
    assert SkewTime(s) * u >= 0;
  }

  lemma NotYet(ts: Timespec, now: Timespec)
    requires ClockReading(now) && Nanos(now) < Nanos(ts)
    ensures !Expired(ts, now) && !ExpiredCheck(ts, now)
  {
  }

  /** A backup that keeps hearing its master never takes over, at any point of the run. */
  lemma {:induction false} NoTakeover(s: Instance, inputs: seq<Input>, last: int, n: nat)
    requires Inv(s) && s.state == BACKUP && AllValid(inputs) && n <= |inputs|
    requires Nanos(s.downTimer) >= last + 3 * s.masterAdvInt * UnitOf(s.cfg.version)
    requires Fed(s, inputs, last)
    ensures Loop(s, inputs[..n]).state == BACKUP
    decreases n
  {
    hide Coupled, HooksOk, PacketsOk, IntervalOk, Step, OutcomeOf, Deadline;
    if n > 0 {
      var i := inputs[0];
      var r := Step(s, i);
      NotYet(s.downTimer, i.t0);
      NotYet(s.downTimer, i.t1);
      BackupPass(s, i);
      StepKeeps(s, i);
      RearmedLongEnough(r, i.t2);
      NoTakeover(r, inputs[1..], if OutcomeOf(s, i) == Rearmed then Nanos(i.t2) else last, n - 1);
      assert inputs[..n][1..] == inputs[1..][..n - 1];
    }
  }

  /** The states of a run are those of its loop. */
  lemma {:induction false} TraceLoop(trace: seq<Instance>, inputs: seq<Input>, a: nat, b: nat)
    requires IsTrace(trace, inputs) && a <= b <= |inputs|
    ensures trace[a].Valid() && AllValid(inputs[a..b]) && Loop(trace[a], inputs[a..b]) == trace[b]
    decreases b - a
  {
    hide Step, Initial, Coupled, HooksOk, PacketsOk, IntervalOk;
    TraceInv(trace, inputs, a);
    if a < b {
      TraceLoop(trace, inputs, a + 1, b);
      assert inputs[a..b][0] == inputs[a] && inputs[a..b][1..] == inputs[a + 1..b];
    }
  }

  /**
   In any run, from any pass that arms the timer without cutting the wait
   short: while an acceptable advertisement is processed less than three
   intervals after the previous one, and no resignation and no reload comes
   in, the instance is a backup after every pass.
   */
  lemma NoTakeoverInRun(trace: seq<Instance>, inputs: seq<Input>, k: nat, n: nat)
    requires IsTrace(trace, inputs) && k < n <= |inputs| && trace[k].Valid() && trace[k + 1].Valid()
    requires Arms(trace[k], inputs[k]) && !CutsShort(trace[k], inputs[k])
    requires Fed(trace[k + 1], inputs[k + 1..], Nanos(inputs[k].t2))
    ensures trace[n].state == BACKUP
  {
    hide Coupled, HooksOk, PacketsOk, IntervalOk, Step, OutcomeOf, Fed, Initial, ArmedUnits, CutsShort;
    TraceInv(trace, inputs, k);
    TraceInv(trace, inputs, k + 1);
    ArmingPass(trace[k], inputs[k]);
    FullWait(trace[k], inputs[k]);
    NoTakeover(trace[k + 1], inputs[k + 1..], Nanos(inputs[k].t2), n - k - 1);
    TraceLoop(trace, inputs, k + 1, n);
    assert inputs[k + 1..][..n - k - 1] == inputs[k + 1..n];
  }

  // ----- takeover when it is not -----

  /** No advertisement rearms the timer, and nothing reloads the instance. */
  predicate Silence(s: Instance, inputs: seq<Input>)
    requires s.Valid() && AllValid(inputs)
    decreases inputs
  {
    inputs == [] ||
    var o := OutcomeOf(s, inputs[0]);
    o == Takeover || (o == Ignored && Silence(Step(s, inputs[0]), inputs[1..]))
  }

  /** In silence, a pass that starts after the deadline finds the instance master. */
  lemma {:induction false} SilenceMeansTakeover(s: Instance, inputs: seq<Input>) returns (n: nat)
    requires Inv(s) && s.state == BACKUP && AllValid(inputs) && Silence(s, inputs)
    requires inputs != [] && Nanos(inputs[|inputs| - 1].t0) > Nanos(s.downTimer)
    ensures n <= |inputs| && Loop(s, inputs[..n]).state == MASTER
    decreases inputs
  {
    hide Coupled, HooksOk, PacketsOk, IntervalOk, Step, OutcomeOf;
    BackupPass(s, inputs[0]);
    var r := Step(s, inputs[0]);
    if OutcomeOf(s, inputs[0]) == Takeover {
      n := 1;
      assert inputs[..1][1..] == [];
      assert Loop(r, []) == r;
    } else {
      StepKeeps(s, inputs[0]);
      var j := SilenceMeansTakeover(r, inputs[1..]);
      n := j + 1;
      assert inputs[..n][0] == inputs[0] && inputs[..n][1..] == inputs[1..][..j];
    }
  }
}
