/**
 The daemon's own form of the machine: an object whose fields, timers and
 advertisement buffer are updated in place. Every method is proved to do to
 `View()` what the corresponding function of `Machine` does.
 */
module Router {
  import opened Bytes
  import opened Address
  import opened Advert
  import opened Buffers
  import opened Receive
  import opened Timers
  import opened Machine
  import VipList

  class Router {
    const cfg: Config
    const list: VipList.List
    const ip: seq<byte>
    const adv: array<byte>
    const advTimer: Timer
    const downTimer: Timer
    var state: State
    var priority: byte
    var masterAdvInt: word
    var reg: Register
    var pkt: Received
    var exited: bool
    ghost var sent: seq<Frame>
    ghost var hooks: seq<Hook>

    ghost function View(): Instance
      reads this, adv, advTimer, downTimer
    {
      Instance(cfg, state, priority, masterAdvInt, advTimer.ts, downTimer.ts, reg, pkt, adv[..], sent, hooks, exited)
    }

    ghost predicate Valid()
      reads this, adv, advTimer, downTimer, list, list.head, list.entries
    {
      View().Valid() && ip == IpHeader(cfg) && advTimer != downTimer && ListOk()
    }

    ghost predicate ListOk()
      reads list, list.head, list.entries
    {
      list.Valid() && list.Addrs() == cfg.vips
    }

    /** `vrrp_init` and `vrrp_adv_init`, on the buffers that the allocator returned. */
    constructor (cfg: Config, priority: byte, list: VipList.List, adv: array<byte>, iph: array<byte>)
      requires cfg.Valid() && list.Valid() && list.Addrs() == cfg.vips
      requires adv.Length == cfg.Size() && (cfg.family.V4? ==> iph.Length == 20) && adv != iph
      modifies adv, iph
      ensures Valid() && Initial(View()) && this.cfg == cfg && this.priority == priority
      ensures this.adv == adv && this.list == list && fresh(advTimer) && fresh(downTimer)
    {
      hide IpHeader, Built, Prepared;
      ghost var junk := JunkOf(cfg, adv[..]);
      if cfg.family.V4? {
        Ip4Build(cfg, iph);
        this.ip := iph[..];
      } else {
        this.ip := IpHeader(cfg);
      }
      var ok := Build(cfg, priority, list, adv);
      this.cfg, this.priority, this.list, this.adv := cfg, priority, list, adv;
      state, masterAdvInt, exited := INIT, 0, false;
      pkt := Received(Zeros(AddrLen(cfg.family)), 0, 0, 0, 0);
      reg := {KEEP_GOING};
      sent, hooks := [], [];
      advTimer := new Timer();
      downTimer := new Timer();
      new;
      BuiltIsPrepared(cfg, priority, junk);
    }

    // ----- timers -----

    method ArmAdvTimer(now: Timespec)
      requires Valid()
      modifies advTimer
      ensures Valid() && View() == SetAdvTimer(old(View()), now)
    {
      hide ListOk, IpHeader;
      advTimer.Set(now, if cfg.version == 3 then 0 else cfg.advInt, if cfg.version == 3 then masterAdvInt else 0);
    }

    method ArmDownTimer(now: Timespec, units: nat)
      requires Valid()
      modifies downTimer
      ensures Valid() && View() == SetDownTimer(old(View()), now, units)
    {
      hide ListOk, IpHeader;
      downTimer.Set(now, if cfg.version == 3 then 0 else units, if cfg.version == 3 then units else 0);
    }

    method Skew() returns (n: nat)
      requires Valid()
      ensures n == SkewTime(View())
    {
      hide ListOk, IpHeader;
      n := (256 - priority) * (if cfg.version == 3 then masterAdvInt else 1) / 256;
    }

    method Masterdown() returns (n: nat)
      requires Valid()
      ensures n == MasterdownInt(View())
    {
      hide ListOk, IpHeader;
      var skew := Skew();
      n := 3 * masterAdvInt + skew;
    }

    // ----- output -----

    method AdvSend()
      requires Valid()
      modifies this`sent
      ensures Valid() && View() == Send(old(View()))
    {
      hide ListOk, IpHeader;
      sent := sent + [Frame(ip, adv[..])];
    }

    method AdvSendZero()
      requires Valid()
      modifies this`sent, adv
      ensures Valid() && View() == SendZeroAdvert(old(View()))
    {
      hide ListOk, IpHeader, Seal;
      var zero := SendZero(cfg, adv);
      sent := sent + [Frame(ip, zero)];
    }

    method Run(h: Hook)
      requires Valid()
      modifies this`hooks
      ensures Valid() && View() == Exec(old(View()), h)
    {
      hide ListOk, IpHeader;
      hooks := hooks + [h];
    }

    // ----- transitions -----

    method ToMaster(now: Timespec)
      requires Valid()
      modifies this, advTimer, downTimer
      ensures Valid() && View() == GotoMaster(old(View()), now)
    {
      hide ListOk, IpHeader;
      state := MASTER;
      AdvSend();
      Run(HookMaster);
      downTimer.Clear();
      ArmAdvTimer(now);
    }

    method ToBackup(now: Timespec)
      requires Valid()
      modifies this, advTimer, downTimer
      ensures Valid() && View() == GotoBackup(old(View()), now)
    {
      hide ListOk, IpHeader, MasterdownInt, AdvIntOf;
      var previous := state;
      state := BACKUP;
      if previous != INIT {
        Run(HookBackup);
      }
      if cfg.version == 3 {
        if previous == INIT {
          masterAdvInt := cfg.advInt;
        } else if previous == MASTER {
          masterAdvInt := AdvIntOf(pkt);
        }
      }
      advTimer.Clear();
      if previous == INIT && cfg.startDelay != 0 {
        ArmDownTimer(now, cfg.startDelay);
      } else {
        var n := Masterdown();
        ArmDownTimer(now, n);
      }
    }

    method StateInit(now: Timespec)
      requires Valid()
      modifies this, advTimer, downTimer
      ensures Valid() && View() == InitStep(old(View()), now)
    {
      hide ListOk, IpHeader;
      Run(HookInit);
      masterAdvInt := cfg.advInt;
      if priority == OWNER {
        ToMaster(now);
      } else {
        ToBackup(now);
      }
    }

    method StateBackup(i: Input)
      requires Valid() && i.Valid()
      modifies this, adv, advTimer, downTimer
      ensures Valid() && View() == BackupStep(old(View()), i)
    {
      hide ListOk, IpHeader, Listen, MasterdownInt, SkewTime, AdvIntOf, GotoMaster, BackupReload;
      var ev := Await(i);
      match ev
      case TIMER =>
        ToMaster(i.t2);
      case PKT =>
        if pkt.versionType == 0 {
          return;
        }
        if pkt.priority == 0 {
          var n := Skew();
          ArmDownTimer(i.t2, n);
          return;
        }
        if !cfg.preempt || pkt.priority >= priority {
          if cfg.version == 3 {
            masterAdvInt := AdvIntOf(pkt);
          }
          var n := Masterdown();
          ArmDownTimer(i.t2, n);
        }
      case SIGNAL =>
        ReloadBackup();
      case CTRL_FIFO =>
        ReloadBackup();
      case VRID_MISMATCH =>
      case INVALID =>
      case NO_TIMER =>
    }

    method ReloadBackup()
      requires Valid()
      modifies this, downTimer
      ensures Valid() && View() == BackupReload(old(View()))
    {
      hide ListOk, IpHeader;
      var wasSet := TestBit(reg, RELOAD);
      reg := ClearBit(reg, RELOAD);
      if wasSet {
        downTimer.Clear();
        state := INIT;
      } else {
        ClearingClear(old(reg), RELOAD);
      }
    }

    method StateMaster(i: Input)
      requires Valid() && i.Valid()
      modifies this, adv, advTimer, downTimer
      ensures Valid() && View() == MasterStep(old(View()), i)
    {
      hide ListOk, IpHeader, Listen, GotoBackup, MasterReload, AddrCmp;
      var ev := Await(i);
      match ev
      case TIMER =>
        AdvSend();
        ArmAdvTimer(i.t2);
      case PKT =>
        if pkt.versionType == 0 {
          return;
        }
        if pkt.priority == 0 {
          AdvSend();
          ArmAdvTimer(i.t2);
          return;
        }
        if pkt.priority > priority {
          ToBackup(i.t2);
          return;
        }
        if pkt.priority == priority {
          if AddrCmp(cfg.family, pkt.src, cfg.addr) > 0 {
            ToBackup(i.t2);
          }
        }
      case SIGNAL =>
        ReloadMaster();
      case CTRL_FIFO =>
        ReloadMaster();
      case VRID_MISMATCH =>
      case INVALID =>
      case NO_TIMER =>
    }

    method ReloadMaster()
      requires Valid()
      modifies this, adv, advTimer
      ensures Valid() && View() == MasterReload(old(View()))
    {
      hide ListOk, IpHeader, SendZeroAdvert;
      var wasSet := TestBit(reg, RELOAD);
      reg := ClearBit(reg, RELOAD);
      if wasSet {
        advTimer.Clear();
        AdvSendZero();
        Run(HookBackup);
        state := INIT;
      } else {
        ClearingClear(old(reg), RELOAD);
      }
    }

    // ----- waiting -----

    /** The handler runs once for each signal delivered while `pselect` waits. */
    method TakeSignals(sigs: seq<Signal>)
      requires Valid()
      modifies this`reg
      ensures Valid() && View() == old(View()).(reg := HandleSignals(old(reg), sigs))
    {
      hide ListOk, IpHeader;
      for k := 0 to |sigs|
        invariant Valid() && View() == old(View()).(reg := reg)
        invariant HandleSignals(reg, sigs[k..]) == HandleSignals(old(reg), sigs)
      {
        assert sigs[k..][1..] == sigs[k + 1..];
        match sigs[k]
        case SigHup => reg := SetBit(reg, RELOAD);
        case SigUsr => reg := SetBit(reg, DUMP);
        case SigPipe => reg := SetBit(reg, LOGOUT);
        case SigTerm =>
          reg := SetBit(reg, RELOAD);
          reg := ClearBit(reg, KEEP_GOING);
        case SigChld =>
        case SigOther =>
      }
    }

    method CtrlCmd(cmd: Command) returns (ev: Event)
      requires Valid()
      modifies this, adv
      ensures Valid() && (View(), ev) == Control(old(View()), cmd)
    {
      hide ListOk, IpHeader, Seal;
      if cmd.ReadFailed? || |cmd.words| == 0 {
        return INVALID;
      }
      var word := cmd.words[0];
      if word == "stop" {
        reg := SetBit(reg, RELOAD);
        reg := ClearBit(reg, KEEP_GOING);
        return CTRL_FIFO;
      }
      if word == "reload" {
        reg := SetBit(reg, RELOAD);
        return CTRL_FIFO;
      }
      if word == "state" || word == "status" {
        reg := SetBit(reg, DUMP);
        return CTRL_FIFO;
      }
      if word == "prio" {
        if |cmd.words| != 2 || !cmd.argument.Number? {
          return INVALID;
        }
        if priority != cmd.argument.value {
          priority := cmd.argument.value;
          SetPriority(cfg, adv, priority);
        }
        reg := SetBit(reg, RELOAD);
        return CTRL_FIFO;
      }
      return INVALID;
    }

    /** `vrrp_net_recv`: the checks one after the other on a private copy of the buffer. */
    method NetRecv(d: Datagram) returns (ev: Event)
      requires Valid() && d.Valid()
      modifies this`pkt
      ensures Valid() && View() == old(View()).(pkt := Stored(cfg, priority, d, old(pkt)))
      ensures ev == Filter(cfg, priority, d)
    {
      hide ListOk, PacketChecks, IpHeader;
      var h := Parse(cfg.family, d);
      pkt := pkt.(src := h.src);
      if d.len == -1 {
        return INVALID;
      }
      if d.len > cfg.mtu || d.len < cfg.Size() {
        return INVALID;
      }
      pkt := pkt.(versionType := 0);
      var size := (h.totlen - h.hlen) % TWO32;
      if size < PKT_MINSIZE || size > PKT_MAXSIZE {
        return INVALID;
      }
      if h.proto != IPPROTO_VRRP {
        return INVALID;
      }
      var p := Payload(cfg, d);
      ev := CheckPacket(p, h);
      if ev == PKT {
        pkt := Received(h.src, p[0], p[2], p[4], p[5]);
      }
    }

    /** The checks on the advertisement itself. */
    method CheckPacket(p: seq<byte>, h: Layer3) returns (ev: Event)
      requires Valid() && |p| == cfg.Size() && |h.src| == |h.dst| == AddrLen(cfg.family)
      ensures ev == PacketChecks(cfg, priority, p, h)
    {
      hide ListOk, ReceiverChksum, AuthOk, VipsOk, IpHeader;
      if p[0] / 16 != cfg.version {
        return INVALID;
      }
      if h.ttl != TTL {
        return INVALID;
      }
      if p[1] != cfg.vrid {
        return VRID_MISMATCH;
      }
      var sumOk := CheckSum(p, h);
      if !sumOk {
        return INVALID;
      }
      if priority == OWNER {
        return INVALID;
      }
      var authOk := CheckAuth(p);
      if !authOk {
        return INVALID;
      }
      var vipsOk := CheckVips(p);
      if !vipsOk {
        return INVALID;
      }
      if p[5] != cfg.advInt {
        return INVALID;
      }
      return PKT;
    }

    /** The stored checksum is saved, zeroed while summing, compared, and put back. */
    method CheckSum(p: seq<byte>, h: Layer3) returns (ok: bool)
      requires Valid() && |p| == cfg.Size() && |h.src| == |h.dst| == AddrLen(cfg.family)
      ensures ok <==> ReceiverChksum(cfg, p, h) == Load16(cfg.host, p[6], p[7])
    {
      hide ListOk, Chksum, IpHeader, NonZeroOr, Group;
      var src, dst := NonZeroOr(cfg.family, h.src, cfg.addr), NonZeroOr(cfg.family, h.dst, Group(cfg.family));
      var buf := new byte[|p|];
      Memcpy(buf, 0, p);
      assert buf[..] == p && buf[0..cfg.Size()] == p;
      var chksum := Load16(cfg.host, buf[6], buf[7]);
      var sum := AdvChecksum(cfg, buf, 0, src, dst);
      assert sum == ReceiverChksum(cfg, p, h);
      if sum != chksum {
        return false;
      }
      var field := Store16(cfg.host, chksum);
      assert field == [p[6], p[7]];
      buf[6], buf[7] := field[0], field[1];
      assert buf[..] == p;
      return true;
    }

    method CheckAuth(p: seq<byte>) returns (ok: bool)
      requires Valid() && |p| == cfg.Size()
      ensures ok <==> AuthOk(cfg, p)
    {
      hide ListOk, IpHeader;
      if cfg.version != 3 {
        if p[4] != cfg.AuthType() {
          return false;
        }
        if p[4] == 1 {
          var at := 8 + |cfg.vips| * 4;
          if p[at..at + |cfg.auth.password|] != cfg.auth.password {
            return false;
          }
        }
      }
      return true;
    }

    method CheckVips(p: seq<byte>) returns (ok: bool)
      requires Valid() && |p| == cfg.Size()
      ensures ok <==> VipsOk(cfg, p)
    {
      var ndiff := VipList.Compare(cfg.family, list, p, |cfg.vips|);
      ok := !((p[3] != |cfg.vips| || ndiff != 0) && p[2] != OWNER && cfg.version == 2);
    }

    /** `vrrp_listen`. */
    method Await(i: Input) returns (ev: Event)
      requires Valid() && i.Valid()
      modifies this, adv, advTimer, downTimer
      ensures Valid() && (View(), ev) == Listen(old(View()), i)
    {
      hide ListOk, IpHeader, Stored, Filter, Control, Expired;
      var vt := downTimer;
      var onAdv := advTimer.IsRunning();
      if onAdv {
        vt := advTimer;
      } else {
        var onDown := downTimer.IsRunning();
        if !onDown {
          exited := true;
          return NO_TIMER;
        }
      }
      var expired := vt.Update(i.t0);
      assert Valid() && View() == old(View());
      if expired {
        return TIMER;
      }
      match i.wake
      case Signals(sigs) =>
        TakeSignals(sigs);
        return SIGNAL;
      case SelectError =>
        return INVALID;
      case Ready(socket, fifo) =>
        expired := vt.IsExpired(i.t1);
        assert Valid() && View() == old(View());
        if expired {
          return TIMER;
        }
        ev := ReadReady(socket, fifo);
    }

    /** The socket is served before the control FIFO. */
    method ReadReady(socket: Option<Datagram>, fifo: Option<Command>) returns (ev: Event)
      requires Valid() && (socket.Some? ==> socket.value.Valid())
      modifies this, adv
      ensures Valid()
      ensures (View(), ev) == ReadInput(old(View()), socket, fifo)
    {
      hide ListOk, IpHeader, Stored, Filter, Control;
      if socket.Some? {
        ev := NetRecv(socket.value);
      } else if fifo.Some? {
        ev := CtrlCmd(fifo.value);
      } else {
        ev := INVALID;
      }
    }

    /** `vrrp_process`. */
    method Process(i: Input)
      requires Valid() && i.Valid()
      modifies this, adv, advTimer, downTimer
      ensures Valid() && View() == Step(old(View()), i)
    {
      hide ListOk, IpHeader, InitStep, BackupStep, MasterStep;
      match state {
        case INIT => StateInit(i.t2);
        case BACKUP => StateBackup(i);
        case MASTER => StateMaster(i);
      }
      reg := ClearBit(reg, DUMP);
    }

    /** The loop of `main`, fed with what each pass will meet. */
    method MainLoop(inputs: seq<Input>)
      requires Valid() && forall k :: 0 <= k < |inputs| ==> inputs[k].Valid()
      modifies this, adv, advTimer, downTimer
      ensures Valid() && View() == Loop(old(View()), inputs)
    {
      hide ListOk, IpHeader, Step;
      var k := 0;
      while k < |inputs| && TestBit(reg, KEEP_GOING) && !exited
        invariant 0 <= k <= |inputs| && Valid()
        invariant Loop(View(), inputs[k..]) == Loop(old(View()), inputs)
      {
        assert inputs[k..][0] == inputs[k] && inputs[k..][1..] == inputs[k + 1..];
        Process(inputs[k]);
        k := k + 1;
      }
    }
  }

  lemma ClearingClear(reg: Register, nr: nat)
    requires !TestBit(reg, nr)
    ensures ClearBit(reg, nr) == reg
  {
  }
}
