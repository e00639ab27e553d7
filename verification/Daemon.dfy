/**
 The daemon from start to end: an instance is built on its buffers and runs the
 main loop in place.
 */
module Daemon {
  import opened Bytes
  import opened Advert
  import opened Timers
  import opened Machine
  import opened Runs
  import opened Lifetime
  import Router
  import VipList

  /**
   `main` after option parsing, fed with what each pass meets. However many
   passes it makes, the object ends up where the theorems about runs say: in a
   state that owns its timer, with the interface up exactly when it is master,
   and, if the loop was told to end, back in INIT with everything released.
   */
  method Run(cfg: Config, priority: byte, list: VipList.List, adv: array<byte>, iph: array<byte>, inputs: seq<Input>)
    returns (r: Router.Router)
    requires cfg.Valid() && list.Valid() && list.Addrs() == cfg.vips
    requires adv.Length == cfg.Size() && (cfg.family.V4? ==> iph.Length == 20) && adv != iph
    requires AllValid(inputs)
    modifies adv, iph
    ensures fresh(r) && r.Valid() && r.cfg == cfg && Inv(r.View())
    ensures InterfaceUp(r.hooks) <==> r.state == MASTER
    ensures KEEP_GOING !in r.reg ==> r.state == INIT && r.advTimer.ts == r.downTimer.ts == ZERO
    ensures r.adv == adv && adv[2] == r.priority
    ensures Verifies(cfg, adv[..], cfg.addr, Group(cfg.family))
  {
    hide Verifies, Prepared, Step;
    r := new Router.Router(cfg, priority, list, adv, iph);
    ghost var s0 := r.View();
    r.MainLoop(inputs);
    InitialInv(s0);
    LoopKeeps(s0, inputs);
    InterfaceWhileMaster(s0, inputs);
    PacketsAlwaysGood(s0, inputs);
  }
}
