/**
 One VRRP instance as a deterministic machine: the state, what can happen
 while it waits, and the effect of one pass of the main loop. The class
 `Router` carries out these steps in place; the theorems about runs and
 networks are about `Step`.
 */
module Machine {
  import opened Bytes
  import opened Address
  import opened Advert
  import opened Buffers
  import opened Receive
  import opened Timers

  datatype Option<T> = None | Some(value: T)

  datatype State = INIT | BACKUP | MASTER

  /** Calls of the hook script, named by the state passed to it. */
  datatype Hook = HookInit | HookBackup | HookMaster

  // ----- the control register -----

  /** A machine word that is only touched bit by bit: the set of the bits that are on. */
  type Register = set<nat>

  /** The enumerators `BIT_MASK(0)`, ..., `BIT_MASK(3)` serve as bit numbers. */
  const KEEP_GOING: nat := 1
  const DUMP: nat := 2
  const LOGOUT: nat := 4
  const RELOAD: nat := 8

  predicate TestBit(reg: Register, nr: nat) {
    nr in reg
  }

  function SetBit(reg: Register, nr: nat): Register {
    reg + {nr}
  }

  function ClearBit(reg: Register, nr: nat): Register {
    reg - {nr}
  }

  datatype Signal = SigHup | SigUsr | SigPipe | SigTerm | SigChld | SigOther

  /** `signal_handler`; `SigTerm` stands for INT, TERM and QUIT. */
  function HandleSignal(reg: Register, sig: Signal): Register {
    match sig
    case SigHup => SetBit(reg, RELOAD)
    case SigUsr => SetBit(reg, DUMP)
    case SigPipe => SetBit(reg, LOGOUT)
    case SigTerm => ClearBit(SetBit(reg, RELOAD), KEEP_GOING)
    case SigChld => reg
    case SigOther => reg
  }

  function HandleSignals(reg: Register, sigs: seq<Signal>): Register
    decreases sigs
  {
    if sigs == [] then reg else HandleSignals(HandleSignal(reg, sigs[0]), sigs[1..])
  }

  // ----- inputs -----

  /** The outcome of reading the argument of `prio` as a number up to 255. */
  datatype Number = OutOfRange | NotANumber | Number(value: byte)

  /** A line read from the control FIFO, cut into words. */
  datatype Command = ReadFailed | Command(words: seq<string>, argument: Number)

  /** How `pselect` returned. */
  datatype Wake = Signals(sigs: seq<Signal>) | SelectError | Ready(socket: Option<Datagram>, fifo: Option<Command>)

  /** One pass of the loop: the clock before and after waiting, and when a timer is set. */
  datatype Input = Input(t0: Timespec, wake: Wake, t1: Timespec, t2: Timespec) {
    predicate Valid() {
      && ClockReading(t0) && ClockReading(t1) && ClockReading(t2)
      && Nanos(t0) <= Nanos(t1) <= Nanos(t2)
      && (wake.Ready? && wake.socket.Some? ==> wake.socket.value.Valid())
    }
  }

  // ----- the instance -----

  datatype Instance = Instance(
    cfg: Config,
    state: State,
    priority: byte,
    masterAdvInt: word,
    advTimer: Timespec,
    downTimer: Timespec,
    reg: Register,
    pkt: Received,
    adv: seq<byte>,
    sent: seq<Frame>,
    hooks: seq<Hook>,
    exited: bool)
  {
    predicate Valid() {
      cfg.Valid() && |adv| == cfg.Size() && |pkt.src| == AddrLen(cfg.family)
    }
  }

  /** The instance that `main` hands to the loop. */
  predicate Initial(s: Instance) {
    && s.Valid() && Prepared(s.cfg, s.priority, s.adv)
    && s.state == INIT && s.advTimer == ZERO && s.downTimer == ZERO
    && s.reg == {KEEP_GOING} && s.sent == [] && s.hooks == [] && !s.exited
  }

  function SkewTime(s: Instance): nat {
    (256 - s.priority) * (if s.cfg.version == 3 then s.masterAdvInt else 1) / 256
  }

  function MasterdownInt(s: Instance): nat {
    3 * s.masterAdvInt + SkewTime(s)
  }

  function SetAdvTimer(s: Instance, now: Timespec): Instance {
    var units := if s.cfg.version == 3 then s.masterAdvInt else s.cfg.advInt;
    s.(advTimer := Deadline(now, s.cfg.version, units))
  }

  function SetDownTimer(s: Instance, now: Timespec, units: int): Instance {
    s.(downTimer := Deadline(now, s.cfg.version, units))
  }

  /** What a master announces: the prepared packet behind its header. */
  function Announcement(s: Instance): Frame
    requires s.Valid()
  {
    Frame(IpHeader(s.cfg), s.adv)
  }

  function Send(s: Instance): Instance
    requires s.Valid()
  {
    s.(sent := s.sent + [Announcement(s)])
  }

  function ZeroAdvert(s: Instance): (p: seq<byte>)
    requires s.Valid()
  {
    Seal(s.cfg, s.adv[2 := 0])
  }

  function SendZeroAdvert(s: Instance): Instance
    requires s.Valid()
  {
    s.(sent := s.sent + [Frame(IpHeader(s.cfg), ZeroAdvert(s))])
  }

  function Exec(s: Instance, h: Hook): Instance {
    s.(hooks := s.hooks + [h])
  }

  // ----- transitions -----

  function GotoMaster(s: Instance, now: Timespec): (r: Instance)
    requires s.Valid()
    ensures r.Valid() && r.cfg == s.cfg
  {
    var s1 := Exec(Send(s.(state := MASTER)), HookMaster);
    SetAdvTimer(s1.(downTimer := ZERO), now)
  }

  function GotoBackup(s: Instance, now: Timespec): (r: Instance)
    requires s.Valid()
    ensures r.Valid() && r.cfg == s.cfg
  {
    var s1 := s.(state := BACKUP, advTimer := ZERO);
    var s2 := if s.state != INIT then Exec(s1, HookBackup) else s1;
    var s3 := if s.cfg.version != 3 then s2
              else if s.state == INIT then s2.(masterAdvInt := s.cfg.advInt)
              else if s.state == MASTER then s2.(masterAdvInt := AdvIntOf(s.pkt))
              else s2;
    if s.state == INIT && s.cfg.startDelay != 0 then SetDownTimer(s3, now, s.cfg.startDelay)
    else SetDownTimer(s3, now, MasterdownInt(s3))
  }

  function InitStep(s: Instance, now: Timespec): (r: Instance)
    requires s.Valid()
    ensures r.Valid() && r.cfg == s.cfg
  {
    var s1 := Exec(s, HookInit).(masterAdvInt := s.cfg.advInt);
    if s.priority == OWNER then GotoMaster(s1, now) else GotoBackup(s1, now)
  }

  function BackupOn(s: Instance, ev: Event, now: Timespec): (r: Instance)
    requires s.Valid()
    ensures r.Valid() && r.cfg == s.cfg
  {
    match ev
    case TIMER => GotoMaster(s, now)
    case PKT =>
      if s.pkt.versionType == 0 then s
      else if s.pkt.priority == 0 then SetDownTimer(s, now, SkewTime(s))
      else if !s.cfg.preempt || s.pkt.priority >= s.priority then
        var s1 := if s.cfg.version == 3 then s.(masterAdvInt := AdvIntOf(s.pkt)) else s;
        SetDownTimer(s1, now, MasterdownInt(s1))
      else s
    case SIGNAL => BackupReload(s)
    case CTRL_FIFO => BackupReload(s)
    case VRID_MISMATCH => s
    case INVALID => s
    case NO_TIMER => s
  }

  function BackupReload(s: Instance): (r: Instance)
    requires s.Valid()
    ensures r.Valid() && r.cfg == s.cfg
  {
    if TestBit(s.reg, RELOAD) then s.(reg := ClearBit(s.reg, RELOAD), downTimer := ZERO, state := INIT) else s
  }

  function MasterOn(s: Instance, ev: Event, now: Timespec): (r: Instance)
    requires s.Valid()
    ensures r.Valid() && r.cfg == s.cfg
  {
    match ev
    case TIMER => SetAdvTimer(Send(s), now)
    case PKT =>
      if s.pkt.versionType == 0 then s
      else if s.pkt.priority == 0 then SetAdvTimer(Send(s), now)
      else if s.pkt.priority > s.priority then GotoBackup(s, now)
      else if s.pkt.priority == s.priority && AddrCmp(s.cfg.family, s.pkt.src, s.cfg.addr) > 0 then GotoBackup(s, now)
      else s
    case SIGNAL => MasterReload(s)
    case CTRL_FIFO => MasterReload(s)
    case VRID_MISMATCH => s
    case INVALID => s
    case NO_TIMER => s
  }

  function MasterReload(s: Instance): (r: Instance)
    requires s.Valid()
    ensures r.Valid() && r.cfg == s.cfg
  {
    if TestBit(s.reg, RELOAD) then
      Exec(SendZeroAdvert(s.(reg := ClearBit(s.reg, RELOAD), advTimer := ZERO)), HookBackup).(state := INIT)
    else s
  }

  // ----- waiting -----

  datatype Waiting = OnAdv | OnDown | OnNothing

  /** Which timer `vrrp_listen` waits for. */
  function Awaited(s: Instance): Waiting {
    if Running(s.advTimer) then OnAdv else if Running(s.downTimer) then OnDown else OnNothing
  }

  function AwaitedDeadline(s: Instance): Timespec {
    if Awaited(s) == OnAdv then s.advTimer else s.downTimer
  }

  /** `vrrp_timer_is_expired`. */
  predicate ExpiredCheck(ts: Timespec, now: Timespec) {
    Expired(ts, now) || (ts.sec <= 0 && ts.nsec <= 0)
  }

  function Control(s: Instance, cmd: Command): (r: (Instance, Event))
    requires s.Valid()
    ensures r.0.Valid() && r.0.cfg == s.cfg
  {
    if cmd.ReadFailed? || cmd.words == [] then (s, INVALID)
    else if cmd.words[0] == "stop" then
      (s.(reg := ClearBit(SetBit(s.reg, RELOAD), KEEP_GOING)), CTRL_FIFO)
    else if cmd.words[0] == "reload" then (s.(reg := SetBit(s.reg, RELOAD)), CTRL_FIFO)
    else if cmd.words[0] == "state" || cmd.words[0] == "status" then (s.(reg := SetBit(s.reg, DUMP)), CTRL_FIFO)
    else if cmd.words[0] == "prio" then
      if |cmd.words| != 2 || !cmd.argument.Number? then (s, INVALID)
      else
        var v := cmd.argument.value;
        var s1 := if s.priority != v then s.(priority := v, adv := Seal(s.cfg, s.adv[2 := v])) else s;
        (s1.(reg := SetBit(s.reg, RELOAD)), CTRL_FIFO)
    else (s, INVALID)
  }

  /** What is read once `pselect` reports a descriptor; the socket goes first. */
  function ReadInput(s: Instance, socket: Option<Datagram>, fifo: Option<Command>): (r: (Instance, Event))
    requires s.Valid() && (socket.Some? ==> socket.value.Valid())
    ensures r.0.Valid() && r.0.cfg == s.cfg
  {
    if socket.Some? then
      (s.(pkt := Stored(s.cfg, s.priority, socket.value, s.pkt)), Filter(s.cfg, s.priority, socket.value))
    else if fifo.Some? then Control(s, fifo.value)
    else (s, INVALID)
  }

  function Listen(s: Instance, i: Input): (r: (Instance, Event))
    requires s.Valid() && i.Valid()
    ensures r.0.Valid() && r.0.cfg == s.cfg
  {
    if Awaited(s) == OnNothing then (s.(exited := true), NO_TIMER)
    else if Expired(AwaitedDeadline(s), i.t0) then (s, TIMER)
    else
      match i.wake
      case Signals(sigs) => (s.(reg := HandleSignals(s.reg, sigs)), SIGNAL)
      case SelectError => (s, INVALID)
      case Ready(socket, fifo) =>
        if ExpiredCheck(AwaitedDeadline(s), i.t1) then (s, TIMER) else ReadInput(s, socket, fifo)
  }

  function BackupStep(s: Instance, i: Input): (r: Instance)
    requires s.Valid() && i.Valid()
    ensures r.Valid() && r.cfg == s.cfg
  {
    var l := Listen(s, i);
    BackupOn(l.0, l.1, i.t2)
  }

  function MasterStep(s: Instance, i: Input): (r: Instance)
    requires s.Valid() && i.Valid()
    ensures r.Valid() && r.cfg == s.cfg
  {
    var l := Listen(s, i);
    MasterOn(l.0, l.1, i.t2)
  }

  /** The state handler that `vrrp_process` selects. */
  function Handle(s: Instance, i: Input): (r: Instance)
    requires s.Valid() && i.Valid()
    ensures r.Valid() && r.cfg == s.cfg
  {
    match s.state
    case INIT => InitStep(s, i.t2)
    case BACKUP => BackupStep(s, i)
    case MASTER => MasterStep(s, i)
  }

  /** `vrrp_process`. */
  function Step(s: Instance, i: Input): (r: Instance)
    requires s.Valid() && i.Valid()
    ensures r.Valid() && r.cfg == s.cfg
  {
    var h := Handle(s, i);
    h.(reg := ClearBit(h.reg, DUMP))
  }

  /** The main loop over a sequence of passes; it ends when `KEEP_GOING` is cleared. */
  function Loop(s: Instance, inputs: seq<Input>): (s': Instance)
    requires s.Valid() && forall k :: 0 <= k < |inputs| ==> inputs[k].Valid()
    ensures s'.Valid() && s'.cfg == s.cfg
    decreases inputs
  {
    if inputs == [] || !TestBit(s.reg, KEEP_GOING) || s.exited then s
    else Loop(Step(s, inputs[0]), inputs[1..])
  }
}
