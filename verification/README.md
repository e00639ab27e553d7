# A verified model of uvrrpd

uvrrpd is a VRRP router daemon: RFC 3768 (version 2) and RFC 5798 (version 3),
over IPv4 and IPv6. This project models the daemon from the octets of an
advertisement up to several routers on a link, and proves what the daemon is
for: one master, and only one, for as long as it is heard.

`dafny verify dfyconfig.toml` checks everything.

## How it is put together

| file | what it models |
|---|---|
| `Bytes.dfy`, `Checksum.dfy` | octets and host byte order; the Internet checksum as a loop with 32-bit wrap-around, against the ones' complement sum of RFC 1071 |
| `Address.dfy` | primary addresses and the tie-break comparison |
| `VipList.dfy` | the circular doubly linked list of virtual addresses, and its comparison with a received list |
| `Advert.dfy`, `Buffers.dfy` | configuration, packet layout, pseudo-headers; the buffers that are built once and patched in place |
| `Receive.dfy` | the acceptance filter, the round trip, corruption |
| `Wire.dfy` | what the RFCs put on the wire, as an independent decoder and in literal octets |
| `Timers.dfy` | timespec subtraction with carry, and the timers |
| `Machine.dfy` | one instance as a deterministic machine: `Step` is one pass of the main loop |
| `Router.dfy`, `Daemon.dfy` | the same machine as an object updated in place; every method is proved to do to the object's view what the function of `Machine` does |
| `Runs.dfy`, `Lifetime.dfy` | what every pass keeps; theorems about every run of one instance |
| `Timed.dfy` | when a backup takes over and when it cannot |
| `Election.dfy`, `Convergence.dfy`, `Exclusion.dfy` | several instances on one link |
| `Service.dfy` | one master from the leader's punctuality and the link's delay, whatever state the others are in |
| `Handover.dfy` | from one master to the next: silence, resignation, failure |
| `Scenario.dfy` | concrete runs of two routers that meet the premises of `Exclusion.ExactlyOneMaster`, `Service.LeaderServes`, `Service.Stabilises`, `Handover.Succession`, `Handover.Failover` and `Convergence.OneMasterRemains` |
| `Departures.dfy` | inputs on which the daemon does something else than one might expect |

Each pass of the loop takes an `Input`: the clock readings, how `pselect`
returned, the datagram or the command that was read, the signals delivered.
The clock is normalised, never the instant zero, and does not go back within a
pass. Sending and running the hook script append to two traces, `sent` and
`hooks`. On the link, a router may read any frame that any router has sent so
far, as often and as late as it likes; so the link may lose, delay, duplicate
and reorder.

A host's byte order is part of its configuration. The theorems about packets
and elections hold for any mix of little-endian and big-endian hosts.

## Main results

- `Service.LeaderServes`: once the router of greatest rank has announced itself
  and every other router is a backup that would wait longer than `d`, it is the
  only master at every later moment, provided it is never late by more than `e`,
  each announcement is read by every other router within `d`, `e + d` is below
  two intervals, nobody is reloaded and no old resignation is read. What the
  backups do is derived, not assumed: they cannot learn another interval, every
  reading rearms them, and none makes a pass at or after its deadline.
- `Service.Stabilises`: the same from any state of the others -- masters, or
  backups about to take over -- once each has read one announcement.
- `Handover.Failover`: over one run, a master serves, fails without a word, and
  the first of the others takes over; of the routers still running there is never
  more than one master. `Handover.Succession` and
  `Handover.HighestPrioritySucceeds`: the survivor whose deadline comes first
  takes over, no other ever does, and in version 3 the skew makes that the one of
  highest priority.
- `Exclusion.ExactlyOneMaster`: the same conclusion when each backup hears any
  acceptable advertisement at least every three intervals, whoever sent it.
- `Election.StableLeader`: the greatest router, once master, stays master
  whatever the link and the other routers do, unless it is itself reloaded.
  This needs no bound on the priorities: 0 and 255 are covered.
- `Convergence.ConvergesExactly`: once all announcements of a set of simultaneous
  masters have been exchanged, in any order, the masters left are those that no
  other one beats; so exactly one is left if and only if exactly one is unbeaten.
  `Convergence.OneMasterRemains`: with distinct addresses less than 2^31 apart and
  at most one owner, that is always the greatest.
- `Receive.RoundTrip`: built packets are accepted exactly under a condition that
  can be read off the two configurations, also when their intervals differ;
  `Receive.FilterExact` says what is accepted among all datagrams.
- `Wire.DecodeBuilt`, `Wire.HeaderAsStandard`: an independent decoder reads back
  from every built packet what was configured, and the IP headers are the RFCs'
  octet for octet; `Lifetime.PacketsAlwaysGood` says so of every frame ever sent.
- `Timed.MasterPassExact`, `Timed.OutcomeByInput`, `Timed.HooksFollowStates`: which
  input makes a master or a backup do what, read off clock, datagram, signals and
  command; and the calls of the script in any run are those of its states.
- `Timed.DeadlineOrigin`, `Timed.IntervalOrigin`: in every reachable state, which
  earlier pass the deadline and the interval in force come from, and what it chose.
- `Advert.ChecksumIsStandard`: the checksum octets are those of the standard on
  either kind of host, although the IPv6 pseudo-header is laid out differently.
- `Lifetime.CleanShutdown` and the other theorems of `Lifetime`: every run keeps
  its timers, interface, packets and intervals in order, and ends by resigning.

## Where the code departs from what one might expect

The model follows the code; these facts are stated by the members named.

- The IPv4 comparison returns a 32-bit difference as a signed integer, so it
  orders two addresses as numbers exactly when their difference fits one
  (`Address.Ip4CmpExact`); `Address.Ip4CmpCycle` gives three addresses each
  greater than the next. Of two masters of equal priority that hear each other,
  exactly one steps down unless the addresses are equal or half the address
  space apart, and then both stay (`Convergence.TieBreakExact`, with the input
  `Departures.BothStay`). With three, each can be beaten by another although any
  two alone would settle, and then none is left (`Departures.NoMasterLeft`);
  exactly when one master remains is `Convergence.ConvergesExactly`. Distinct
  IPv4 addresses less than 2^31 apart are enough; IPv6 needs no such condition.
- One octet of the announced interval is compared with the whole local one. An
  instance whose interval is above 255 therefore refuses every packet, and one
  below accepts a packet exactly when the low octets agree (`Receive.RoundTrip`,
  `Receive.AcceptanceMeans`).
- Version 3 learns the whole field, reserved bits included: what is learned is
  the local interval exactly when the high octet is zero, and the twelve bits
  that the standard reads exactly when the reserved ones are zero
  (`Receive.AcceptanceMeans`). It then advertises at the learned interval while
  announcing its own: the two agree exactly when nothing else was learned
  (`Timed.MasterPass`), that is, when the last packet learned had a zero high
  octet (`Timed.IntervalOrigin`). `Departures.ForeignInterval` is a run that ends
  in a master announcing 100 and sending every 612; a backup that misses nothing
  is due before the next announcement exactly when the learned interval exceeds
  three announced ones and its skew (`Departures.OvertakenOnTime`), and
  `Departures.TwoMastersOnTime` is a run in which it takes over. Among routers
  configured with one interval this cannot happen (`Service.RunIsHealthy`).
  `Departures.ReservedBitLearned` gives, for every such instance, an accepted
  packet whose reserved bit is learned as 4096 centiseconds more.
- In IPv6 more than 64 addresses exceed the receiver's size limit
  (`Receive.RoundTrip`).
- A deadline that carries one whole second too many in its nanoseconds counts as
  passed at the very instant it falls due (`Timers.TieReportedAsExpired`, exactly
  then by `Timers.ExpiredOnClock`).
- In version 2 the skew is 0 for every priority but 0, where section 6.1 of
  RFC 3768 has a fraction of a second (`Lifetime.SkewBounds`).
- A start delay shorter than three intervals, like a resignation, cuts the first
  wait short; nothing else does (`Timed.FullWait`).
- The comparison of address lists accepts a packet that repeats an address. The
  sets are equal exactly when the packet has as many different addresses as the
  local list; if that repeats nothing, when the packet repeats nothing (`VipList.CompareDecidesSetEquality`,
  for accepted packets `Receive.AcceptedAddresses`);
  `Departures.RepeatedAddressAccepted` gives, for every instance with two or more
  addresses, a datagram that it accepts although only one is named.
- A stored checksum of 0xffff is always refused, though the standard's test may
  pass; every other packet that passes it is accepted
  (`Advert.RecomputationIsStandard`). `Departures.OnesRefused` is such a packet.
- An IPv4 source of zero is taken for the receiver's own address when the
  checksum is recomputed (`Receive.ZeroSourceIsOwn`).

## Model

| member | source | states |
|---|---|---|
| Checksum.SumWords | common.h:91-95 | the loop accumulates the exact sum of up to 65537 words without 32-bit overflow |
| Checksum.Cksum | common.h:86-107 | loop, two folds and complement give the complement of the ones' complement sum of section 1 of RFC 1071 |
| Checksum.FoldIsResidue | common.h:103-106 | two folds bring any 32-bit accumulator to its ones' complement value |
| Checksum.OnesSumIsResidue | common.h:91-104 | carrying at every addition or once at the end is the same |
| Checksum.ChecksumByteOrderIndependent | common.h:86-107 | summing native words and storing natively puts the same two octets on the wire on either kind of host |
| Checksum.RecomputedVersusAllOnes | vrrp_net.c:340-350 | zero, recompute and compare is the all-ones test of RFC 1071, except for a stored 0xffff where 0 is computed |
| Checksum.SingleWordChange | common.h:86-107 | a changed word leaves the checksum alone exactly when it exchanges 0x0000 and 0xffff and some other word is not zero |
| Address.Ip4CmpExact | vrrp_ip4.c:243-246 | the comparison agrees with the numbers if and only if their difference fits a signed 32-bit integer |
| Address.Ip4CmpCycle | vrrp_ip4.c:243-246 | three addresses, each greater than the next in a circle |
| Address.MemcmpIsOrder | vrrp_ip6.c:327-330 | the IPv6 comparison is the numeric order of the addresses |
| VipList.Insert | list.h:67-75 | the new entry is linked both ways between its neighbours |
| VipList.List.constructor | list.h:55-59 | a fresh head is a closed ring with no entries |
| VipList.List.Register | vrrp_net.c:217-251 | appending at the tail keeps a closed, doubly linked ring and adds the address at the end of the registration order |
| VipList.List.Search | vrrp_ip4.c:64-73 | reverse iteration ends and finds an address if and only if it is registered |
| VipList.Compare | vrrp_ip4.c:107-133 | the result counts exactly the packet positions whose address is not registered, in either family |
| VipList.CompareZero | vrrp_ip6.c:134-165 | the result is zero if and only if every packet address is registered |
| VipList.ZeroDecidesEquality | vrrp_ip4.c:107-133 | a zero result means equal sets if and only if both sides have as many different addresses |
| VipList.CompareDecidesSetEquality | vrrp_ip4.c:107-133 | with equal counts and no repetition in the local list, the address sets are equal if and only if the result is zero and the packet repeats no address |
| Buffers.Ip4Build | vrrp_adv.c:96-125 | whatever the buffer held, it becomes the IPv4 header of the instance |
| Buffers.Ip4HeaderVerifies | vrrp_adv.c:107-120 | that header passes the checksum test of RFC 1071 |
| Buffers.WriteAddresses | vrrp_adv.c:188-217 | the walk from the tail writes each registered address once, last first, and never meets the count check |
| Buffers.BuiltAddresses | vrrp_adv.c:188-217 | the k-th address of the packet is the k-th registered from the end |
| Buffers.AdvChecksum | vrrp_ip4.c:174-221 | the field is zeroed and the sum is that of the packet, behind the pseudo-header of its version and family |
| Buffers.Build | vrrp_adv.c:163-233 | whatever the allocator returned, the buffer becomes the sealed packet; only unused authentication octets survive |
| Wire.DecodeBuilt | vrrp_adv.c:175-217 | an independent decoder of section 5.1 of both RFCs reads from a built packet version, type 1, VRID, priority, count, authentication type, interval and the addresses last registered first |
| Wire.BuiltTail | vrrp_adv.c:219-225 | size of the packet and what follows the addresses: the password in version 2 with authentication, untouched octets otherwise, nothing in IPv6 |
| Wire.HeaderAsStandard | vrrp_adv.c:107-150 | the IPv4 and IPv6 headers in literal octets: lengths, TTL 255, protocol 112, source, and the groups 224.0.0.18 and ff02::12 |
| Advert.LengthFieldAsStored | vrrp_ip6.c:290-296 | on either kind of host the length field is the native 32-bit store of the 16-bit network-order length |
| Advert.LengthWordMoves | vrrp_ip6.c:277-305 | putting the 16-bit length in the other half of the 32-bit field leaves the sum of the pseudo-header unchanged |
| Advert.ChecksumIsStandard | vrrp_ip6.c:266-306 | the field octets are those of the big-endian checksum over the layout of section 8.1 of RFC 2460 (or section 5.2.8 of RFC 5798), on any host |
| Advert.RecomputationIsStandard | vrrp_net.c:340-350 | the receiver's comparison on any host passes if and only if the standard's test does and the stored checksum is not 0xffff |
| Advert.SealVerifies | vrrp_adv.c:226-227 | a sealed packet sums to all ones |
| Advert.Reprioritise | vrrp_adv.h:56-65 | rewriting the priority and resealing gives the packet a fresh build would give |
| Buffers.SetPriority | vrrp_adv.h:56-65 | the prepared packet gets the new priority and its checksum, and no other octet changes but those |
| Buffers.SendZero | vrrp_adv.c:246-268 | the packet sent is sealed with priority 0 and the buffer comes back octet for octet |
| Receive.RoundTrip | vrrp_net.c:269-416 | a built packet is accepted by another instance of the same virtual router if and only if the low octet of its interval is the receiver's interval, the receiver is not the owner, the packet fits the MTU and, in IPv6, there are at most 64 addresses; priority, interval and source are then read back |
| Receive.ChecksumAgrees | vrrp_net.c:340-350 | sender and receiver of different byte orders agree on the checksum |
| Receive.FilterExact | vrrp_net.c:279-415 | the sequence of checks accepts a datagram if and only if it meets an unordered list of conditions on its octets, length and hop limit (section 7.1 of both RFCs as the daemon takes them), and reports a VRID mismatch exactly for well-framed packets of another VRID |
| Receive.AcceptanceMeans | vrrp_net.c:285-413 | an accepted packet passes the standard's checksum test (with a zero IPv4 address replaced as the daemon replaces it), is within the length limits, has TTL or hop limit 255 and protocol 112 in its octets, and announces an interval congruent to the local one, which is at most 255; in version 3 it is equal if and only if the high octet is zero, and the standard's twelve bits if and only if the reserved ones are zero |
| Receive.BufferAfterRead | vrrp_net.c:291-413 | a read leaves the source always, the fields of an accepted packet, and of a refused one of possible length no version |
| Receive.AcceptedAddresses | vrrp_net.c:392-402 | for an accepted version 2 packet not of priority 255, the announced set is within the local one, and equal to it if and only if (without local repetition) the packet repeats no address |
| Departures.RepeatedAddressAccepted | vrrp_net.c:392-402 | every version 2 instance with two or more addresses accepts a datagram that names only the first |
| Departures.OnesRefused | vrrp_net.c:340-350 | two datagrams that differ in how zero is stored in the checksum field: both pass the standard's test, the one with 0xffff is refused |
| Departures.ReservedBitLearned | vrrp_adv.h:88-95 | every version 3 instance with an interval up to 255 accepts an IPv4 packet announcing that interval with a reserved bit set, and learns 4096 more |
| Receive.CorruptionDetected | vrrp_net.c:340-350 | an accepted packet with any one word overwritten is refused, unless the word is unchanged or 0x0000 and 0xffff are exchanged |
| Receive.AddressChangeDetected | vrrp_ip4.c:185-217 | in version 3, of two datagrams with one advertisement whose covered addresses differ in one word, at most one is accepted, unless 0x0000 and 0xffff are exchanged |
| Receive.RedirectionDetected | vrrp_ip6.c:266-306 | an accepted version 3 packet with any one word of its addresses overwritten is accepted if and only if the covered addresses keep their sum modulo 0xffff; without zero addresses, if and only if the word is unchanged or 0x0000 and 0xffff are exchanged |
| Receive.ZeroSourceIsOwn | vrrp_ip4.c:189-202 | the filter treats an IPv4 source of zero as the receiver's own address |
| Receive.ZeroDestinationIsGroup | vrrp_ip4.c:189-202 | and a destination of zero as 224.0.0.18 |
| Timers.Subtract | vrrp_timer.c:46-68 | for all operands the difference is exact, with nanoseconds in 0..10^9, and negative is reported for a negative difference or a tie that leaves 10^9 |
| Timers.ExpiredOnClock | vrrp_timer.c:46-68 | against a normalised clock the tie is the raw difference of exactly 10^9 |
| Timers.TieReportedAsExpired | vrrp_timer.c:55-67 | such a tie exists: a version 3 deadline of 100 centiseconds reached exactly |
| Timers.DeadlineNanos | vrrp_timer.c:76-99 | a deadline lies the given number of seconds (version 2) or centiseconds (version 3) after the clock, in nanoseconds |
| Timers.Timer.Update | vrrp_timer.c:136-159 | the deadline pair is rebuilt unchanged, the remainder is exact, and expiry is reported exactly when it has passed |
| Timers.Timer.IsExpired | vrrp_timer.c:165-172 | likewise, and a deadline at or before zero counts as expired |
| Timers.ExpiryIsPermanent | vrrp_timer.c:136-172 | with a clock that does not go back, expired stays expired |
| Router.Router.constructor | vrrp.c:43-70 | the instance starts in INIT with clear timers and a prepared packet of its priority |
| Router.Router.ArmAdvTimer | vrrp_timer.h:58-61 | the advertisement deadline is in units of the version: configured interval in version 2, learned interval in version 3 |
| Router.Router.ToMaster | vrrp_state.c:285-309 | state, packet sent, hook and timers of the transition, and nothing else |
| Router.Router.ToBackup | vrrp_state.c:315-352 | likewise, with the learned interval and the start delay |
| Router.Router.StateInit | vrrp_state.c:48-67 | the owner becomes master, any other router a backup |
| Router.Router.StateBackup | vrrp_state.c:72-167 | the whole effect of one pass in BACKUP |
| Router.Router.StateMaster | vrrp_state.c:172-279 | the whole effect of one pass in MASTER |
| Router.Router.TakeSignals | uvrrpd.c:183-217 | the register after any number of signals |
| Router.Router.CtrlCmd | vrrp_ctrl.c:134-226 | event, register, priority and prepared packet after a command |
| Router.Router.NetRecv | vrrp_net.c:269-416 | the event returned and the receive buffer left behind, for every datagram |
| Router.Router.CheckSum | vrrp_net.c:340-350 | the comparison of the stored checksum with the recomputed one; the copy is restored |
| Router.Router.Await | vrrp.c:127-201 | the event of a pass and everything waiting may change |
| Router.Router.Process | vrrp.c:93-118 | one pass is `Machine.Step` |
| Router.Router.MainLoop | uvrrpd.c:150-151 | the loop is `Machine.Loop` |
| Daemon.Run | uvrrpd.c:72-177 | the object built and run in place satisfies the invariant, the interface and the shutdown theorems |
| Runs.SignalFlags | uvrrpd.c:183-217 | any sequence of signals asks for a reload if and only if it holds HUP or TERM, ends the loop if and only if it holds TERM, asks for a dump if and only if it holds USR, and for a logout if and only if it holds PIPE |
| Runs.ListenHeard | vrrp.c:127-201 | with state and timers coupled, waiting never exits for want of a timer, and each event carries what the handlers rely on |
| Runs.StepKeeps | vrrp_state.c:48-352 | every pass keeps the invariant on timers, hooks, packets, interval and flags |
| Runs.InterfaceParity | vrrp_switch.sh:46-68 | with alternating hook calls the interface exists after an odd number of switches |
| Lifetime.LoopKeeps | uvrrpd.c:150-151 | the invariant holds after any number of passes |
| Lifetime.TimerBelongsToState | vrrp.c:127-147 | in every reachable state the timer waited for is the one of the state, and the exit is never taken |
| Lifetime.InterfaceWhileMaster | vrrp_state.c:249-327 | "master" and "backup" calls alternate, "master" first, and the interface exists exactly while the state is MASTER |
| Lifetime.PacketsAlwaysGood | vrrp_adv.c:246-268 | between passes the prepared packet has the current priority and a valid checksum, and it and every frame ever sent are, header and advertisement, what the RFCs put on the wire |
| Lifetime.SentFramesAreAccepted | vrrp_net.c:269-416 | any frame of any run is accepted by another instance under the exact condition of the round trip |
| Lifetime.SignalPass | vrrp_state.c:138-147 | a signal leads to INIT exactly for HUP and TERM |
| Lifetime.CommandFlags | vrrp_ctrl.c:134-226 | each flag after a command, and which commands are recognised |
| Lifetime.CommandPass | vrrp_ctrl.c:134-226 | stop, reload and a well-formed prio lead to INIT, the last with the new priority prepared; nothing else changes anything |
| Lifetime.SkewBounds | vrrp_timer.h:51-53 | the skew is at most one interval, and in version 2 it is 0 but for priority 0 |
| Lifetime.IntervalsInEveryRun | vrrp_net.c:404-413 | version 2 never learns an interval; version 3 learns one congruent to its own; the masterdown interval lies between 3 and 4 of them |
| Lifetime.HigherPriorityExpiresFirst | vrrp_timer.h:51-66 | version 3 backups armed together expire in order of priority, strictly when far enough apart |
| Lifetime.Resignation | vrrp_state.c:249-262 | leaving MASTER for INIT sends one packet: a valid advertisement of priority 0 |
| Lifetime.CleanShutdown | uvrrpd.c:150-217 | every run that leaves the loop ends in INIT, timers clear, no reload pending, interface gone, and has resigned if its last pass began as master |
| Timed.BackupPass | vrrp_state.c:72-136 | a backup becomes master exactly when its deadline has passed; every other outcome and the deadline it leaves |
| Timed.MasterPass | vrrp_state.c:176-182 | when its timer runs out a master repeats its announcement and rearms, with the interval it announces if and only if it has learned no other (version 3) or its interval fits one octet (version 2) |
| Timed.MasterPassExact | vrrp_state.c:172-279 | exactly which inputs make a master announce itself (its timer, or an accepted packet of priority 0), yield, resign or do nothing, with what is sent and the deadline left |
| Timed.OutcomeByInput | vrrp_state.c:72-167 | exactly which inputs make a backup take over, rearm, hurry, reload or do nothing |
| Timed.ListenByInput | vrrp.c:127-201 | the event of a pass in terms of the clock, the datagram's octets, the signals and the command |
| Timed.HooksPass | vrrp_state.c:48-352 | a pass calls the script for the change of state it makes, with "init" on leaving INIT, and for nothing else |
| Timed.HooksFollowStates | vrrp_state.c:48-352 | in every run the calls of the script are those of the states it went through, in order |
| Timed.InitHookPerInitPass | vrrp_state.c:48-56 | the script is called with "init" once for each pass that begins in INIT |
| Timed.AnnouncingPass | vrrp_state.c:176-206 | a pass that ends in MASTER either sends the announcement and arms the timer anew, or leaves both alone |
| Timed.InitPass | vrrp_state.c:48-67 | the first deadline: owner, start delay, or masterdown interval |
| Timed.StepDown | vrrp_state.c:315-352 | a master that steps down waits for the interval it has just learned |
| Timed.IntervalPass | vrrp_state.c:116-127 | a pass changes the interval in force only by learning one, and then it is the configured one if and only if the high octet is zero |
| Timed.IntervalOrigin | vrrp_state.c:329-335 | in every reachable state the interval in force is the configured one or that of the last packet learned, and equal to the configured one if and only if that packet's high octet is zero |
| Timed.OwnInterval | vrrp_timer.h:58-61 | a run that learns only packets with a zero high octet keeps to its own interval throughout |
| Departures.ForeignInterval | vrrp_timer.h:58-61 | a run, fed by a router configured with 612, that ends in a master configured with and announcing 100 but sending every 612 |
| Departures.OvertakenOnTime | vrrp_timer.h:51-61 | a backup that reads an announcement at once is due before the next one if and only if the sender does not come from INIT and its learned interval exceeds three announced ones and the backup's skew |
| Departures.TwoMastersOnTime | vrrp_timer.h:51-61 | two runs in which a backup reads an announcement at once and nevertheless takes over before the master's next one is due |
| Timed.ArmingPass | vrrp_state.c:85-136 | a pass that ends in BACKUP sets the deadline to now plus the wait of its kind, or leaves timer and interval alone |
| Timed.FullWait | vrrp_state.c:337-347 | the wait chosen is three intervals or more if and only if it is neither a resignation's nor a shorter start delay |
| Timed.DeadlineOrigin | vrrp_state.c:85-136 | in every reachable backup state the deadline is the clock of one earlier pass plus the wait chosen there (start delay, masterdown or skew, according to that pass), and every pass since ignored what it met |
| Timed.NoTakeover | vrrp_state.c:72-136 | a backup fed less than three intervals apart is a backup at every point of the run |
| Timed.NoTakeoverInRun | vrrp_state.c:72-136 | in any run, from any pass that arms the timer without cutting the wait short, a backup fed less than three intervals apart is a backup after every pass |
| Timed.SilenceMeansTakeover | vrrp_state.c:78-83 | in silence, a pass that starts after the deadline finds the instance master |
| Election.PacketTiedToSender | vrrp_adv.c:238-268 | any receiver of any frame reads the sender's address, the priority and the high interval octet in the frame |
| Election.StepEmits | vrrp_adv.c:238-268 | a pass sends at most one frame, of priority 0 or of the priority in force, and changes priority only by command |
| Election.LeaderStays | vrrp_state.c:184-247 | a master that reads only packets from below stays master |
| Election.RunIsLed | vrrp_state.c:72-279 | in every reachable network state every router, and everything it ever sent, is below the leader |
| Election.LeaderLasts | vrrp_state.c:184-247 | from any network state it leads, a leader that is master stays master while it is not reloaded |
| Election.StableLeader | vrrp_state.c:184-247 | once the greatest router is master it is master at every later moment, under any loss, delay, duplication or reordering |
| Convergence.HandedStep | vrrp_state.c:201-247 | handed a peer's announcement, a backup stays backup, and a master steps down if and only if the announcement beats it by priority or address and it is not the owner |
| Convergence.RoundSettles | vrrp_state.c:116-136 | after any deliveries, for any addresses and priorities, a router is master if and only if it was one and no announcement delivered to it beats it |
| Convergence.UnbeatenRemain | vrrp_state.c:201-247 | a complete round leaves exactly the masters that no other master beats |
| Convergence.ConvergesExactly | vrrp_state.c:201-352 | a complete round leaves one master if and only if it is the only one that no other beats |
| Departures.NoMasterLeft | vrrp_ip4.c:243-246 | a complete round of three masters, of which any two would settle, leaves no master |
| Departures.BothStay | vrrp_ip4.c:243-246 | a complete round of two masters 2^31 apart leaves both |
| Convergence.OneMasterRemains | vrrp_state.c:201-352 | from any non-empty set of masters exactly one remains, the greatest, and all others are backups |
| Convergence.OwnerNeverYields | vrrp_net.c:352-360 | an address owner stays master whatever it receives |
| Convergence.TieBreakExact | vrrp_state.c:226-239 | of two masters of equal priority handed each other's announcement exactly one steps down if and only if their addresses differ and, in IPv4, are not 2^31 apart, and otherwise both stay; the greater number stays if and only if they are less than 2^31 apart |
| Scenario.TwoMasters | vrrp_state.c:201-247 | a round with two simultaneous masters that meets the premises of convergence |
| Scenario.RoundExists | vrrp_state.c:201-247 | in any group whose deadlines lie ahead, any deliveries from masters, in any order, do make a round |
| Exclusion.NodeView | vrrp.c:93-118 | seen from one node, a run of the network is a run of its own loop |
| Exclusion.ExactlyOneMaster | vrrp_state.c:72-279 | exactly one master at every moment while the greatest router is master and heard |
| Service.RunIsHealthy | vrrp_state.c:119-126 | among routers configured with one interval every running router keeps to it, in every reachable network state |
| Service.LeaderTimer | vrrp_state.c:176-206 | each announcement sets the leader's next one exactly one configured interval ahead, and nothing else moves it |
| Service.ConveyedRearms | vrrp_state.c:116-127 | a backup that reads what the leader sent is rearmed by it |
| Service.NotOverdue | vrrp_state.c:78-83 | while the leader is punctual no settled backup makes a pass at or after its deadline |
| Service.LeaderServes | vrrp_state.c:72-279 | exactly one master at every later moment, from the leader's lateness and the link's delay, when all others start as backups waiting longer than the delay, nobody is reloaded and no old resignation is read |
| Service.Stabilises | vrrp_state.c:72-279 | the same from any state of the others, masters included, once each has read one announcement of the leader |
| Handover.Succession | vrrp_state.c:78-83 | after silence, the survivor whose deadline comes first by more than lateness and delay takes over, and no other ever does |
| Handover.HighestPrioritySucceeds | vrrp_timer.h:51-56 | in version 3, of survivors armed within a window by silence or by a resignation, it is the one of highest priority once the skews are far enough apart |
| Handover.SurvivorSucceeds | vrrp_state.c:78-83 | succession among the survivors of a failed node that stays in the network and makes no more passes |
| Handover.Failover | vrrp_state.c:72-279 | over one run, the only master until its failure, then among the running routers none or the successor alone, and the successor once its deadline has passed by its lateness |
| Scenario.RouterSucceeds | vrrp_state.c:72-167 | a run that meets the premises of succession, and then of service and stabilisation |
| Scenario.RouterFails | vrrp_state.c:72-167 | a run that meets the premises of failover |

## Left out

- Sockets, multicast membership, ancillary data, interface and MTU lookup, `sendmsg`: what is read is an input, what is sent goes to a trace.
- A failed `recvmsg` in IPv6 leaves the stored source address alone, while the model overwrites it; no event reads it then.
- Gratuitous ARP and neighbour advertisements, and the Ethernet header: fixed layouts with easy properties.
- `vrrp_exec.c`: forking and arguments; a hook call is a trace entry, and the script is taken to succeed.
- Option parsing, pid file, FIFO creation, scheduling, logging: the ranges that options accept are the conditions of `Config.Valid`.
- The cutting of a command line into words, and number and address parsing: commands arrive cut into words, with the number read.
- The odd-length branch of `cksum`: every length summed is even.
- Failures of the clock, of memory allocation and of `fork`.
- Differences between the clocks of hosts: the theorems of `Service` and `Handover` compare the clocks of all routers as one; those of `Election`, `Convergence` and `Exclusion` do not.
- Late frames of a failed master: `Handover.Failover` takes none to be read after the failure, since a successor of lower rank would step down to one.
- Integers of type `time_t` and `long` are unbounded; the deadlines reached here stay far below 2^63.
- The remainder passed to `pselect` is described by `Timers.Timer.Update` and is not part of the machine's state, since `pselect` may return for any reason.
- Version 2 over IPv6, which the options can be forced into, and more than 255 addresses.
- Unused list helpers such as `list_swap`.
