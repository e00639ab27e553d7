/**
 Primary addresses, in network order, and the comparison that breaks ties
 between two masters of equal priority (`vrrp_ip4_cmp`, `vrrp_ip6_cmp`).
 */
module Address {
  import opened Bytes

  datatype Family = V4 | V6

  function AddrLen(f: Family): nat {
    if f.V4? then 4 else 16
  }

  const TWO31: int := 0x8000_0000
  const TWO32: int := 0x1_0000_0000

  /** `ntohl(a) - ntohl(b)` as a `uint32_t`, returned through an `int`. */
  function Ip4Cmp(a: seq<byte>, b: seq<byte>): int
    requires |a| == |b| == 4
  {
    var d := (Value(a) - Value(b)) % TWO32;
    if d < TWO31 then d else d - TWO32
  }

  /** `memcmp`: the difference of the first octets that differ. */
  function Memcmp(a: seq<byte>, b: seq<byte>): int
    requires |a| == |b|
  {
    if a == [] then 0 else if a[0] != b[0] then a[0] - b[0] else Memcmp(a[1..], b[1..])
  }

  function AddrCmp(f: Family, a: seq<byte>, b: seq<byte>): int
    requires |a| == |b| == AddrLen(f)
  {
    if f.V4? then Ip4Cmp(a, b) else Memcmp(a, b)
  }

  lemma ValueBound4(a: seq<byte>)
    requires |a| == 4
    ensures Value(a) < TWO32
  {
    var p3, p2, p1 := a[..3], a[..2], a[..1];
    assert p3[..2] == p2 && p2[..1] == p1 && p1[..0] == [];
    assert Value(p1) == a[0];
    assert Value(p2) == 256 * Value(p1) + a[1];
    assert Value(p3) == 256 * Value(p2) + a[2];
  }

  /** Numbers in network order determine their octets. */
  lemma {:induction false} ValueInjective(a: seq<byte>, b: seq<byte>)
    requires |a| == |b| && Value(a) == Value(b)
    ensures a == b
  {
    if a != [] {
      var n := |a| - 1;
      assert a[n] == Value(a) % 256 && b[n] == Value(b) % 256;
      ValueInjective(a[..n], b[..n]);
      assert a == a[..n] + [a[n]] && b == b[..n] + [b[n]];
    }
  }

  /**
   When the IPv4 comparison orders two addresses the way the numbers are
   ordered: exactly when `a - b` fits a signed 32-bit integer.
   */
  lemma Ip4CmpExact(a: seq<byte>, b: seq<byte>)
    requires |a| == |b| == 4
    ensures (Ip4Cmp(a, b) > 0 <==> Value(a) > Value(b))
            <==> -TWO31 <= Value(a) - Value(b) < TWO31
  {
    ValueBound4(a);
    ValueBound4(b);
    var d := Value(a) - Value(b);
    if d < 0 {
      assert d % TWO32 == d + TWO32;
    }
  }

  /** Over the whole address space the IPv4 comparison is not an order. */
  lemma Ip4CmpCycle()
    ensures var a, b, c := [0, 0, 0, 1], [100, 0, 0, 1], [200, 0, 0, 1];
            Ip4Cmp(b, a) > 0 && Ip4Cmp(c, b) > 0 && Ip4Cmp(a, c) > 0
  {
    Value4(0, 0, 0, 1);
    Value4(100, 0, 0, 1);
    Value4(200, 0, 0, 1);
  }

  lemma Value4(w: byte, x: byte, y: byte, z: byte)
    ensures Value([w, x, y, z]) == ((w * 256 + x) * 256 + y) * 256 + z
  {
    var a := [w, x, y, z];
    assert a[..3] == [w, x, y] && [w, x, y][..2] == [w, x] && [w, x][..1] == [w] && [w][..0] == [];
    assert Value([w]) == w;
    assert Value([w, x]) == 256 * w + x;
    assert Value([w, x, y]) == 256 * (256 * w + x) + y;
  }

  lemma {:induction false} MemcmpLast(a: seq<byte>, b: seq<byte>)
    requires |a| == |b| > 0
    ensures var n := |a| - 1;
            var front := Memcmp(a[..n], b[..n]);
            Memcmp(a, b) == if front != 0 then front else a[n] as int - b[n] as int
  {
    var n := |a| - 1;
    if n > 0 {
      assert a[..n][1..] == a[1..][..n - 1] && b[..n][1..] == b[1..][..n - 1];
      MemcmpLast(a[1..], b[1..]);
    } else {
      assert a[1..] == [] && b[1..] == [];
    }
  }

  /** The IPv6 comparison is the numeric order, with no side condition. */
  lemma {:induction false} MemcmpIsOrder(a: seq<byte>, b: seq<byte>)
    requires |a| == |b|
    ensures Memcmp(a, b) > 0 <==> Value(a) > Value(b)
    ensures Memcmp(a, b) == 0 <==> Value(a) == Value(b)
  {
    if a != [] {
      MemcmpLast(a, b);
      MemcmpIsOrder(a[..|a| - 1], b[..|b| - 1]);
    }
  }

  /** Two addresses of one family that the daemon compares as numbers. */
  predicate Comparable(f: Family, a: seq<byte>, b: seq<byte>) {
    |a| == |b| == AddrLen(f)
    && (f.V4? ==> Value(a) - Value(b) < TWO31 && Value(b) - Value(a) < TWO31)
  }

  lemma AddrCmpIsOrder(f: Family, a: seq<byte>, b: seq<byte>)
    requires Comparable(f, a, b)
    ensures AddrCmp(f, a, b) > 0 <==> Value(a) > Value(b)
  {
    if f.V4? {
      Ip4CmpExact(a, b);
    } else {
      MemcmpIsOrder(a, b);
    }
  }
}
