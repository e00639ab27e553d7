/**
 The list of virtual addresses: the intrusive circular list of `list.h`, the
 registration order of `vrrp_net_vip_set`, and the comparison of a received
 address list with the local one.
 */
module VipList {
  import opened Bytes
  import opened Address

  /** An entry of the list, or its head (whose address is not used). */
  class Link {
    var next: Link
    var prev: Link
    const addr: seq<byte>

    /** `INIT_LIST_HEAD`: alone on its own ring. */
    constructor (addr: seq<byte>)
      ensures next == this && prev == this && this.addr == addr
    {
      this.addr := addr;
      next, prev := this, this;
    }
  }

  /** `__list_add`: insert between two consecutive entries. */
  method Insert(entry: Link, prev: Link, next: Link)
    requires entry != prev && entry != next
    modifies entry, prev, next
    ensures entry.next == next && entry.prev == prev
    ensures prev.next == entry && next.prev == entry
    ensures prev != next ==> prev.prev == old(prev.prev) && next.next == old(next.next)
  {
    next.prev := entry;
    entry.next := next;
    entry.prev := prev;
    prev.next := entry;
  }

  class List {
    const head: Link
    ghost var entries: seq<Link>

    ghost function Ring(): (r: seq<Link>)
      reads this
    {
      [head] + entries
    }

    /** Every entry is linked to its neighbours both ways, and the ring closes at the head. */
    ghost predicate Valid()
      reads this, head, entries
    {
      var r := Ring();
      && (forall i, j :: 0 <= i < j < |r| ==> r[i] != r[j])
      && (forall i :: 0 <= i < |r| - 1 ==> r[i].next == r[i + 1])
      && (forall i :: 0 < i < |r| ==> r[i].prev == r[i - 1])
      && r[|r| - 1].next == head && head.prev == r[|r| - 1]
    }

    /** The addresses in the order of registration. */
    ghost function Addrs(): (s: seq<seq<byte>>)
      reads this
      ensures |s| == |entries|
    {
      seq(|entries|, i requires 0 <= i < |entries| reads this => entries[i].addr)
    }

    constructor ()
      ensures Valid() && Addrs() == [] && fresh(head)
    {
      head := new Link([]);
      entries := [];
    }

    /** `list_add_tail` of a new entry, as `vrrp_net_vip_set` does it. */
    method Register(addr: seq<byte>)
      requires Valid()
      modifies this, head, entries
      ensures Valid()
      ensures Addrs() == old(Addrs()) + [addr]
      ensures |entries| == |old(entries)| + 1 && entries[..|old(entries)|] == old(entries)
      ensures fresh(entries[|old(entries)|])
    {
      var entry := new Link(addr);
      ghost var r := Ring();
      Insert(entry, head.prev, head);
      entries := entries + [entry];
      assert Ring() == r + [entry];
    }

    /**
     `list_for_each_entry_reverse`: one visit to each entry, last
     registration first; the search stops at the first match.
     */
    method Search(addr: seq<byte>) returns (found: bool)
      requires Valid()
      ensures found <==> addr in Addrs()
    {
      found := false;
      var pos := head.prev;
      ghost var k := |entries|;
      while pos != head
        invariant 0 <= k <= |entries| && pos == Ring()[k]
        invariant forall i :: k <= i < |entries| ==> entries[i].addr != addr
        decreases k
      {
        assert pos == entries[k - 1];
        if pos.addr == addr {
          assert Addrs()[k - 1] == addr;
          return true;
        }
        pos := pos.prev;
        k := k - 1;
      }
      assert Ring()[0] == Ring()[k];
      assert forall i :: 0 <= i < |Addrs()| ==> Addrs()[i] != addr;
    }
  }

  /** Reverse iteration starts at the last entry of the ring. */
  lemma Closes(list: List)
    requires list.Valid()
    ensures list.head.prev == list.Ring()[|list.entries|] && list.Ring()[0] == list.head
  {
  }

  /** One step of reverse iteration goes to the entry registered just before. */
  lemma Back(list: List, k: nat)
    requires list.Valid() && 0 < k <= |list.entries|
    ensures var pos := list.Ring()[k];
            pos != list.head && pos.prev == list.Ring()[k - 1] && pos.addr == list.Addrs()[k - 1]
  {
    assert list.Ring()[k] == list.entries[k - 1];
    assert list.Ring()[0] != list.Ring()[k];
  }

  /** The `k`-th address of the list that starts at offset 8 of a packet. */
  function AddrAt(f: Family, pkt: seq<byte>, k: nat): (a: seq<byte>)
    requires 8 + (k + 1) * AddrLen(f) <= |pkt|
    ensures |a| == AddrLen(f)
  {
    pkt[8 + k * AddrLen(f)..8 + (k + 1) * AddrLen(f)]
  }

  /** The first `n` addresses of a packet. */
  function PacketAddrs(f: Family, pkt: seq<byte>, n: nat): (s: seq<seq<byte>>)
    requires 8 + n * AddrLen(f) <= |pkt|
    ensures |s| == n
    ensures forall k :: 0 <= k < n ==> s[k] == AddrAt(f, pkt, k)
  {
    if n == 0 then [] else PacketAddrs(f, pkt, n - 1) + [AddrAt(f, pkt, n - 1)]
  }

  /** The positions of `addrs` whose address is not in `local`. */
  function Missing(addrs: seq<seq<byte>>, local: seq<seq<byte>>): set<nat> {
    set i: nat | 0 <= i < |addrs| && addrs[i] !in local
  }

  /** `vrrp_ip4_viplist_cmp` and `vrrp_ip6_viplist_cmp`: count what is not found locally. */
  method Compare(f: Family, list: List, pkt: seq<byte>, n: nat) returns (ndiff: nat)
    requires list.Valid()
    requires 8 + n * AddrLen(f) <= |pkt|
    ensures ndiff == |Missing(PacketAddrs(f, pkt, n), list.Addrs())|
  {
    ndiff := 0;
    ghost var local := list.Addrs();
    for naddr := 0 to n
      invariant ndiff == |Missing(PacketAddrs(f, pkt, naddr), local)|
    {
      var found := list.Search(AddrAt(f, pkt, naddr));
      MissingStep(PacketAddrs(f, pkt, naddr), AddrAt(f, pkt, naddr), local);
      if !found {
        ndiff := ndiff + 1;
      }
    }
  }

  lemma MissingStep(addrs: seq<seq<byte>>, a: seq<byte>, local: seq<seq<byte>>)
    ensures |Missing(addrs + [a], local)| == |Missing(addrs, local)| + (if a in local then 0 else 1)
  {
    var m, m' := Missing(addrs, local), Missing(addrs + [a], local);
    if a in local {
      assert m' == m;
    } else {
      assert m' == m + {|addrs|};
    }
  }

  predicate Distinct(s: seq<seq<byte>>) {
    forall i, j :: 0 <= i < j < |s| ==> s[i] != s[j]
  }

  function Elements(s: seq<seq<byte>>): set<seq<byte>> {
    set a | a in s
  }

  lemma DistinctSnoc(s: seq<seq<byte>>)
    requires s != []
    ensures var n := |s| - 1;
            Distinct(s) <==> Distinct(s[..n]) && s[n] !in Elements(s[..n])
  {
    var n := |s| - 1;
    if Distinct(s[..n]) && s[n] !in Elements(s[..n]) {
      forall i, j | 0 <= i < j < |s|
        ensures s[i] != s[j]
      {
        assert s[..n][i] == s[i];
        assert j < n ==> s[..n][j] == s[j];
      }
    }
  }

  lemma {:induction false} ElementsCount(s: seq<seq<byte>>)
    ensures |Elements(s)| <= |s|
    ensures Distinct(s) <==> |Elements(s)| == |s|
  {
    if s != [] {
      hide Distinct;
      var n := |s| - 1;
      ElementsCount(s[..n]);
      DistinctSnoc(s);
      assert Elements(s) == Elements(s[..n]) + {s[n]};
    }
  }

  lemma SubsetOfSameSize(a: set<seq<byte>>, b: set<seq<byte>>)
    requires a <= b && |a| >= |b|
    ensures a == b
  {
    assert b == a + (b - a);
    assert |b| == |a| + |b - a|;
  }

  /** A zero comparison says that every address of the packet is registered locally. */
  lemma CompareZero(addrs: seq<seq<byte>>, local: seq<seq<byte>>)
    ensures |Missing(addrs, local)| == 0 <==> Elements(addrs) <= Elements(local)
  {
    if |Missing(addrs, local)| == 0 {
      forall a | a in addrs
        ensures a in local
      {
        var i :| 0 <= i < |addrs| && addrs[i] == a;
        assert i !in Missing(addrs, local);
      }
    } else {
      var i :| i in Missing(addrs, local);
      assert addrs[i] in Elements(addrs) - Elements(local);
    }
  }

  /**
   When a zero comparison means equal sets: exactly when the packet has as many
   different addresses as the local list. The comparison looks in one direction
   only, and counting closes the other.
   */
  lemma ZeroDecidesEquality(addrs: seq<seq<byte>>, local: seq<seq<byte>>)
    requires |Missing(addrs, local)| == 0
    ensures Elements(addrs) == Elements(local) <==> |Elements(addrs)| == |Elements(local)|
  {
    CompareZero(addrs, local);
    if |Elements(addrs)| == |Elements(local)| {
      SubsetOfSameSize(Elements(addrs), Elements(local));
    }
  }

  /**
   With equal counts and no repetition in the local list: the sets are equal if
   and only if the comparison is zero and the packet repeats no address.
   */
  lemma CompareDecidesSetEquality(addrs: seq<seq<byte>>, local: seq<seq<byte>>)
    requires |addrs| == |local|
    ensures Distinct(local) ==>
              (Elements(addrs) == Elements(local) <==> |Missing(addrs, local)| == 0 && Distinct(addrs))
    ensures Distinct(addrs) ==>
              (Elements(addrs) == Elements(local) <==> |Missing(addrs, local)| == 0)
  {
    CompareZero(addrs, local);
    ElementsCount(addrs);
    ElementsCount(local);
    if Elements(addrs) <= Elements(local) {
      ZeroDecidesEquality(addrs, local);
      if Distinct(addrs) {
        SubsetOfSameSize(Elements(addrs), Elements(local));
      }
    }
  }
}
