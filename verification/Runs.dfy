/**
 What every pass of the loop keeps, hence what holds in every reachable state
 of one instance, and how runs end.
 */
module Runs {
  import opened Address
  import opened Advert
  import opened Buffers
  import opened Receive
  import opened Timers
  import opened Machine

  // ----- the invariant -----

  /** A state owns exactly one running timer; INIT owns none. */
  predicate Coupled(s: Instance) {
    match s.state
    case INIT => s.advTimer == ZERO && s.downTimer == ZERO
    case BACKUP => s.advTimer == ZERO && Running(s.downTimer)
    case MASTER => Running(s.advTimer) && s.downTimer == ZERO
  }

  /** The hook calls that create or destroy the virtual interface. */
  function Switches(hooks: seq<Hook>): seq<Hook> {
    if hooks == [] then []
    else
      var last := hooks[|hooks| - 1];
      Switches(hooks[..|hooks| - 1]) + (if last.HookInit? then [] else [last])
  }

  predicate Alternates(w: seq<Hook>) {
    forall k :: 0 <= k < |w| ==> w[k] == if k % 2 == 0 then HookMaster else HookBackup
  }

  /** Whether the interface exists after the script has run for each call. */
  function InterfaceUp(hooks: seq<Hook>): bool {
    if hooks == [] then false
    else
      match hooks[|hooks| - 1]
      case HookMaster => true
      case HookBackup => false
      case HookInit => InterfaceUp(hooks[..|hooks| - 1])
  }

  predicate HooksOk(s: Instance) {
    && Alternates(Switches(s.hooks))
    && (s.state == MASTER <==> |Switches(s.hooks)| % 2 == 1)
  }

  /** A frame of this instance: its header, and a sealed advertisement. */
  predicate FrameOf(c: Config, f: Frame)
    requires c.Valid()
  {
    f.ip == IpHeader(c) && |f.adv| == c.Size() && Prepared(c, f.adv[2], f.adv)
  }

  predicate PacketsOk(s: Instance)
    requires s.Valid()
  {
    && Prepared(s.cfg, s.priority, s.adv)
    && forall k :: 0 <= k < |s.sent| ==> FrameOf(s.cfg, s.sent[k])
  }

  /** The learned interval is the local one, or congruent to a local one that fits an octet. */
  predicate IntervalOk(s: Instance) {
    s.state != INIT ==>
      && (s.cfg.version == 2 ==> s.masterAdvInt == s.cfg.advInt)
      && (s.masterAdvInt == s.cfg.advInt || (s.cfg.advInt <= 255 && s.masterAdvInt % 256 == s.cfg.advInt))
      && s.masterAdvInt >= s.cfg.advInt
  }

  predicate FlagsOk(s: Instance) {
    && !TestBit(s.reg, RELOAD)
    && (!TestBit(s.reg, KEEP_GOING) ==> s.state == INIT)
  }

  predicate Core(s: Instance) {
    s.Valid() && Coupled(s) && HooksOk(s) && PacketsOk(s) && IntervalOk(s) && FlagsOk(s) && !s.exited
  }

  predicate Inv(s: Instance) {
    Core(s) && !TestBit(s.reg, DUMP)
  }

  lemma InitialInv(s: Instance)
    requires Initial(s)
    ensures Inv(s)
  {
    hide Prepared, FrameOf;
  }

  // ----- small facts -----

  lemma ArmedRuns(now: Timespec)
    requires ClockReading(now)
    ensures forall version: int, units: nat :: Running(Deadline(now, version, units))
  {
  }

  lemma SwitchesAppend(hooks: seq<Hook>, h: Hook)
    ensures Switches(hooks + [h]) == Switches(hooks) + (if h.HookInit? then [] else [h])
  {
    assert (hooks + [h])[..|hooks|] == hooks;
  }

  /** With alternating switches the interface exists exactly after an odd number of them. */
  lemma {:induction false} InterfaceParity(hooks: seq<Hook>)
    requires Alternates(Switches(hooks))
    ensures InterfaceUp(hooks) <==> |Switches(hooks)| % 2 == 1
  {
    if hooks != [] {
      var front, last := hooks[..|hooks| - 1], hooks[|hooks| - 1];
      var w := Switches(hooks);
      if last.HookInit? {
        assert w == Switches(front);
        InterfaceParity(front);
      } else {
        assert w[|w| - 1] == last;
      }
    }
  }

  /** Exactly HUP and TERM ask for a reload, exactly TERM ends the loop, USR asks for a dump and PIPE for a logout. */
  lemma {:induction false} SignalFlags(reg: Register, sigs: seq<Signal>)
    ensures var r := HandleSignals(reg, sigs);
            && (TestBit(r, RELOAD) <==> TestBit(reg, RELOAD) || SigHup in sigs || SigTerm in sigs)
            && (TestBit(r, KEEP_GOING) <==> TestBit(reg, KEEP_GOING) && SigTerm !in sigs)
            && (TestBit(r, DUMP) <==> TestBit(reg, DUMP) || SigUsr in sigs)
            && (TestBit(r, LOGOUT) <==> TestBit(reg, LOGOUT) || SigPipe in sigs)
    decreases sigs
  {
    if sigs != [] {
      assert forall sig :: sig in sigs <==> sig == sigs[0] || sig in sigs[1..];
      SignalFlags(HandleSignal(reg, sigs[0]), sigs[1..]);
    }
  }

  // ----- waiting -----

  /** What waiting may change, and what each event tells. */
  predicate Heard(s: Instance, l: Instance, ev: Event) {
    && l.Valid()
    && l == s.(reg := l.reg, pkt := l.pkt, priority := l.priority, adv := l.adv)
    && Prepared(l.cfg, l.priority, l.adv)
    && ev != NO_TIMER
    && (ev == PKT ==>
          && l.priority == s.priority != OWNER && l.pkt.versionType != 0
          && l.cfg.advInt <= 255 && AdvIntOf(l.pkt) % 256 == l.cfg.advInt && AdvIntOf(l.pkt) >= l.cfg.advInt
          && (l.cfg.version == 2 ==> AdvIntOf(l.pkt) == l.cfg.advInt))
    && (TestBit(l.reg, RELOAD) ==> ev == SIGNAL || ev == CTRL_FIFO)
    && (TestBit(s.reg, KEEP_GOING) && !TestBit(l.reg, KEEP_GOING) ==> TestBit(l.reg, RELOAD))
  }

  lemma ControlHeard(s: Instance, cmd: Command)
    requires s.Valid() && Prepared(s.cfg, s.priority, s.adv) && !TestBit(s.reg, RELOAD)
    ensures Heard(s, Control(s, cmd).0, Control(s, cmd).1)
  {
    hide Prepared, Seal, AdvIntOf;
    if cmd.Command? && cmd.argument.Number? {
      Reprioritise(s.cfg, s.priority, cmd.argument.value, s.adv);
    }
  }

  lemma SocketHeard(s: Instance, d: Datagram)
    requires s.Valid() && Prepared(s.cfg, s.priority, s.adv) && !TestBit(s.reg, RELOAD) && d.Valid()
    ensures Heard(s, s.(pkt := Stored(s.cfg, s.priority, d, s.pkt)), Filter(s.cfg, s.priority, d))
  {
    hide Prepared, AdvIntOf, PacketChecks, Verifies, Acceptable;
    if Filter(s.cfg, s.priority, d) == PKT {
      AcceptanceMeans(s.cfg, s.priority, d, s.pkt);
    }
    FilterExact(s.cfg, s.priority, d);
  }

  /** Coupling makes the exit for want of a timer unreachable. */
  lemma ListenHeard(s: Instance, i: Input)
    requires s.Valid() && i.Valid() && s.state != INIT && Coupled(s)
    requires Prepared(s.cfg, s.priority, s.adv) && !TestBit(s.reg, RELOAD)
    ensures Heard(s, Listen(s, i).0, Listen(s, i).1)
  {
    hide Prepared, AdvIntOf, Control, Stored, Filter;
    match i.wake
    case Signals(sigs) => SignalFlags(s.reg, sigs);
    case SelectError =>
    case Ready(socket, fifo) =>
      if socket.Some? {
        SocketHeard(s, socket.value);
      } else if fifo.Some? {
        ControlHeard(s, fifo.value);
      }
  }

  // ----- the handlers -----

  lemma ZeroAdvertOk(s: Instance)
    requires s.Valid() && Prepared(s.cfg, s.priority, s.adv)
    ensures FrameOf(s.cfg, Frame(IpHeader(s.cfg), ZeroAdvert(s))) && ZeroAdvert(s)[2] == 0
  {
    hide Prepared, Seal, IpHeader, Verifies;
    Reprioritise(s.cfg, s.priority, 0, s.adv);
    PreparedFacts(s.cfg, 0, ZeroAdvert(s));
  }

  lemma AdvertOk(s: Instance)
    requires s.Valid() && Prepared(s.cfg, s.priority, s.adv)
    ensures FrameOf(s.cfg, Announcement(s)) && s.adv[2] == s.priority
  {
    hide Prepared, IpHeader, Verifies;
    PreparedFacts(s.cfg, s.priority, s.adv);
  }

  lemma SendKeeps(s: Instance)
    requires s.Valid() && PacketsOk(s)
    ensures PacketsOk(Send(s)) && PacketsOk(SendZeroAdvert(s))
  {
    hide Prepared, FrameOf, IpHeader, ZeroAdvert;
    AdvertOk(s);
    ZeroAdvertOk(s);
  }

  lemma GotoMasterKeeps(s: Instance, now: Timespec)
    requires s.Valid() && ClockReading(now) && !s.exited && s.state != MASTER
    requires s.advTimer == ZERO && HooksOk(s) && PacketsOk(s)
    requires IntervalOk(s.(state := MASTER)) && !TestBit(s.reg, RELOAD) && TestBit(s.reg, KEEP_GOING)
    ensures Core(GotoMaster(s, now)) && GotoMaster(s, now).state == MASTER
  {
    hide Prepared, IpHeader, PacketsOk, HooksOk, Deadline, Announcement;
    var s1 := s.(state := MASTER);
    SamePackets(s, s1);
    SendKeeps(s1);
    SamePackets(Send(s1), GotoMaster(s, now));
    SwitchedOn(s, GotoMaster(s, now));
    ArmedRuns(now);
  }

  lemma SwitchedOn(s: Instance, t: Instance)
    requires HooksOk(s) && s.state != MASTER && t.state == MASTER && t.hooks == s.hooks + [HookMaster]
    ensures HooksOk(t)
  {
    hide Switches;
    SwitchesAppend(s.hooks, HookMaster);
  }

  lemma SamePackets(s: Instance, t: Instance)
    requires s.Valid() && t.Valid() && PacketsOk(s)
    requires s.cfg == t.cfg && s.priority == t.priority && s.adv == t.adv && s.sent == t.sent
    ensures PacketsOk(t)
  {
    hide Prepared, FrameOf;
  }

  lemma GotoBackupKeeps(s: Instance, now: Timespec)
    requires s.Valid() && ClockReading(now) && !s.exited && s.state != BACKUP
    requires HooksOk(s) && PacketsOk(s) && !TestBit(s.reg, RELOAD) && TestBit(s.reg, KEEP_GOING)
    requires s.masterAdvInt == s.cfg.advInt || (s.state == MASTER && IntervalOk(s))
    requires s.state == MASTER ==>
               s.cfg.advInt <= 255 && AdvIntOf(s.pkt) % 256 == s.cfg.advInt && AdvIntOf(s.pkt) >= s.cfg.advInt
    ensures Core(GotoBackup(s, now)) && GotoBackup(s, now).state == BACKUP
  {
    hide Prepared, IpHeader, FrameOf, AdvIntOf, MasterdownInt, Switches, Deadline;
    SwitchesAppend(s.hooks, HookBackup);
    ArmedRuns(now);
  }

  lemma InitKeeps(s: Instance, now: Timespec)
    requires Core(s) && s.state == INIT && TestBit(s.reg, KEEP_GOING) && ClockReading(now)
    ensures Core(InitStep(s, now)) && InitStep(s, now).state == if s.priority == OWNER then MASTER else BACKUP
  {
    hide Prepared, IpHeader, FrameOf, GotoMaster, GotoBackup;
    SwitchesAppend(s.hooks, HookInit);
    var s1 := Exec(s, HookInit).(masterAdvInt := s.cfg.advInt);
    if s.priority == OWNER {
      GotoMasterKeeps(s1, now);
    } else {
      GotoBackupKeeps(s1, now);
    }
  }

  lemma BackupKeeps(s: Instance, l: Instance, ev: Event, now: Timespec)
    requires Core(s) && s.state == BACKUP && ClockReading(now) && Heard(s, l, ev)
    ensures Core(BackupOn(l, ev, now))
  {
    hide Prepared, FrameOf, GotoMaster, AdvIntOf, IpHeader, MasterdownInt, SkewTime, Deadline;
    if ev == TIMER {
      GotoMasterKeeps(l, now);
    } else {
      ArmedRuns(now);
    }
  }

  lemma MasterReloadKeeps(s: Instance)
    requires s.Valid() && s.state == MASTER && !s.exited && s.downTimer == ZERO && Running(s.advTimer)
    requires HooksOk(s) && PacketsOk(s) && IntervalOk(s) && (TestBit(s.reg, KEEP_GOING) || TestBit(s.reg, RELOAD))
    ensures Core(MasterReload(s))
  {
    hide Prepared, FrameOf, IpHeader, ZeroAdvert;
    SwitchesAppend(s.hooks, HookBackup);
    SendKeeps(s.(reg := ClearBit(s.reg, RELOAD), advTimer := ZERO));
  }

  lemma ResendKeeps(s: Instance, now: Timespec)
    requires Core(s) && s.state == MASTER && ClockReading(now)
    ensures Core(SetAdvTimer(Send(s), now))
  {
    hide Prepared, FrameOf, IpHeader, Deadline;
    SendKeeps(s);
    ArmedRuns(now);
  }

  lemma MasterKeeps(s: Instance, l: Instance, ev: Event, now: Timespec)
    requires Core(s) && s.state == MASTER && ClockReading(now) && Heard(s, l, ev)
    ensures Core(MasterOn(l, ev, now))
  {
    hide Prepared, FrameOf, GotoBackup, AdvIntOf, IpHeader, AddrCmp, MasterReload, SetAdvTimer, Send;
    if ev == SIGNAL || ev == CTRL_FIFO {
      MasterReloadKeeps(l);
    } else {
      assert Core(l);
      ResendKeeps(l, now);
      if ev == PKT {
        GotoBackupKeeps(l, now);
      }
    }
  }

  /** Every pass of the loop keeps the invariant. */
  lemma StepKeeps(s: Instance, i: Input)
    requires Inv(s) && i.Valid() && TestBit(s.reg, KEEP_GOING)
    ensures Inv(Step(s, i))
  {
    hide Prepared, FrameOf, InitStep, BackupOn, MasterOn, Listen, IpHeader;
    match s.state {
      case INIT => InitKeeps(s, i.t2);
      case BACKUP =>
        ListenHeard(s, i);
        BackupKeeps(s, Listen(s, i).0, Listen(s, i).1, i.t2);
      case MASTER =>
        ListenHeard(s, i);
        MasterKeeps(s, Listen(s, i).0, Listen(s, i).1, i.t2);
    }
  }
}
