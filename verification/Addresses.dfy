/** IPv4 addresses as 32-bit numbers, and the hosts a network hands out. */
module Addresses {
  import opened Wrappers

  const WORD := 0x1_0000_0000

  type Addr = a: int | 0 <= a < WORD
  type Octet = b: int | 0 <= b < 256

  /** An address as four octets, most significant first. */
  datatype IPv4 = IPv4(a: Octet, b: Octet, c: Octet, d: Octet)

  function ToUint32(ip: IPv4): Addr {
    ((ip.a * 256 + ip.b) * 256 + ip.c) * 256 + ip.d
  }

  function FromUint32(u: Addr): IPv4 {
    IPv4(u / 0x100_0000, u / 0x1_0000 % 256, u / 256 % 256, u % 256)
  }

  lemma Uint32RoundTrip(u: Addr)
    ensures ToUint32(FromUint32(u)) == u
  {
    assert u / 0x1_0000 == u / 256 / 256 && u / 0x100_0000 == u / 256 / 256 / 256;
  }

  lemma IPv4RoundTrip(ip: IPv4)
    ensures FromUint32(ToUint32(ip)) == ip
  {
    var u3 := ip.a;
    var u2 := u3 * 256 + ip.b;
    var u1 := u2 * 256 + ip.c;
    var u0 := u1 * 256 + ip.d;
    assert u0 / 256 == u1 && u1 / 256 == u2 && u2 / 256 == u3;
    assert u0 / 0x1_0000 == u0 / 256 / 256 && u0 / 0x100_0000 == u0 / 256 / 256 / 256;
  }

  function Pow2(n: nat): (p: nat)
    ensures p >= 1
  {
    if n == 0 then 1 else 2 * Pow2(n - 1)
  }

  lemma {:induction false} Pow2Splits(m: nat, n: nat)
    ensures Pow2(m + n) == Pow2(m) * Pow2(n)
  {
    if m != 0 {
      Pow2Splits(m - 1, n);
      assert Pow2(m + n) == 2 * (Pow2(m - 1) * Pow2(n));
      assert 2 * (Pow2(m - 1) * Pow2(n)) == Pow2(m) * Pow2(n);
    }
  }

  lemma Pow2Of32()
    ensures Pow2(32) == WORD
  {
    assert Pow2(8) == 256;
    Pow2Splits(8, 8);
    Pow2Splits(16, 16);
  }

  datatype Prefix = Prefix(addr: Addr, bits: nat)

  /** Number of addresses in the prefix. */
  function Span(p: Prefix): nat
    requires p.bits <= 32
  {
    Pow2(32 - p.bits)
  }

  /** The network address: all host bits cleared. */
  function Masked(p: Prefix): int
    requires p.bits <= 32
  {
    p.addr - p.addr % Span(p)
  }

  lemma MulMonotone(a: int, b: int, k: nat)
    requires a <= b
    ensures a * k <= b * k
  {
  }

  /** A block of `span` numbers that starts below a multiple of `span` also ends below it. */
  lemma BlockFits(a: nat, span: nat, k: nat)
    requires span >= 1 && a < k * span
    ensures 0 <= a - a % span && a - a % span + span <= k * span
  {
    var q := a / span;
    assert a == q * span + a % span;
    if k <= q {
      MulMonotone(k, q, span);
    } else {
      MulMonotone(q + 1, k, span);
      assert (q + 1) * span == q * span + span;
    }
  }

  /** The whole prefix lies inside the 32-bit space, so host addresses never wrap. */
  lemma PrefixFits(p: Prefix)
    requires p.bits <= 32
    ensures 0 <= Masked(p) && Masked(p) + Span(p) <= WORD
  {
    Pow2Of32();
    Pow2Splits(p.bits, 32 - p.bits);
    BlockFits(p.addr, Span(p), Pow2(p.bits));
  }

  predicate Supported(p: Prefix) {
    8 <= p.bits <= 30
  }

  predicate IsHost(p: Prefix, gateway: Addr, u: Addr)
    requires p.bits <= 32
  {
    Masked(p) < u < Masked(p) + Span(p) - 1 && u != gateway
  }

  lemma MulNext(q: int, span: nat)
    ensures (q + 1) * span == q * span + span
  {
  }

  lemma Quotient(u: nat, q: nat, span: nat)
    requires span >= 1 && q * span <= u < q * span + span
    ensures u / span == q
  {
    var d := u / span;
    assert u == d * span + u % span;
    MulNext(q, span);
    MulNext(d, span);
    if d < q {
      MulMonotone(d + 1, q, span);
    } else if q < d {
      MulMonotone(q + 1, d, span);
    }
  }

  /** Lying strictly inside the block of a number, told by quotient and remainder. */
  lemma InsideBlock(addr: nat, u: nat, span: nat)
    requires span >= 1
    ensures var base := addr - addr % span;
      base < u < base + span - 1 <==> u / span == addr / span && 0 < u % span < span - 1
  {
    var q, d := addr / span, u / span;
    assert addr == q * span + addr % span && u == d * span + u % span;
    if q * span <= u < q * span + span {
      Quotient(u, q, span);
    }
  }

  /** A host has the leading bits of its network, and other bits that are neither all zero nor all one. */
  lemma HostHasPrefix(p: Prefix, gateway: Addr, u: Addr)
    requires p.bits <= 32
    ensures IsHost(p, gateway, u) <==>
      var span := Pow2(32 - p.bits); u / span == p.addr / span && 0 < u % span < span - 1 && u != gateway
  {
    hide Pow2;
    InsideBlock(p.addr, u, Pow2(32 - p.bits));
  }

  /** The assignable addresses: strictly between network and broadcast address, without the gateway. */
  function HostSet(p: Prefix, gateway: Addr): set<Addr>
    requires p.bits <= 32
  {
    set u: Addr | Masked(p) < u < Masked(p) + Span(p) - 1 && IsHost(p, gateway, u)
  }

  function HostCount(p: Prefix, gateway: Addr): int
    requires p.bits <= 32
  {
    Span(p) - 2 - (if Masked(p) < gateway < Masked(p) + Span(p) - 1 then 1 else 0)
  }

  predicate Ascending(ips: seq<IPv4>) {
    forall i, j :: 0 <= i < j < |ips| ==> ToUint32(ips[i]) < ToUint32(ips[j])
  }

  lemma {:induction false} Pow2Bounds(n: nat)
    requires 2 <= n <= 24
    ensures 4 <= Pow2(n) <= 0x100_0000
  {
    if n > 2 {
      Pow2Bounds(n - 1);
      Pow2Monotone(n, 24);
      assert Pow2(24) == 0x100_0000 by {
        assert Pow2(8) == 256;
        Pow2Splits(8, 8);
        Pow2Splits(8, 16);
      }
    }
  }

  lemma {:induction false} Pow2Monotone(m: nat, n: nat)
    requires m <= n
    ensures Pow2(m) <= Pow2(n)
  {
    if m < n {
      Pow2Monotone(m, n - 1);
    }
  }

  predicate Increasing(us: seq<Addr>) {
    forall i, j :: 0 <= i < j < |us| ==> us[i] < us[j]
  }

  predicate Converted(ips: seq<IPv4>, us: seq<Addr>) {
    |ips| == |us| && forall k :: 0 <= k < |ips| ==> ips[k] == FromUint32(us[k])
  }

  lemma ConvertedAppend(ips: seq<IPv4>, us: seq<Addr>, u: Addr)
    requires Converted(ips, us) && Increasing(us) && forall k :: 0 <= k < |us| ==> us[k] < u
    ensures Converted(ips + [FromUint32(u)], us + [u]) && Increasing(us + [u])
  {
  }

  lemma ConvertedInOrder(ips: seq<IPv4>, us: seq<Addr>)
    requires Converted(ips, us) && Increasing(us)
    ensures Ascending(ips) && |ips| == |us|
    ensures forall ip :: ip in ips <==> ToUint32(ip) in us
  {
    forall k | 0 <= k < |us| ensures ToUint32(ips[k]) == us[k] {
      Uint32RoundTrip(us[k]);
    }
    forall ip ensures ip in ips <==> ToUint32(ip) in us {
      IPv4RoundTrip(ip);
    }
  }

  /** Enumerates the hosts in order with 32-bit arithmetic; fails outside /8 to /30. */
  method UsableIPv4Hosts(p: Prefix, gateway: IPv4) returns (hosts: Option<seq<IPv4>>)
    requires p.bits <= 32
    ensures hosts.Some? <==> Supported(p)
    ensures hosts.Some? ==>
      && Ascending(hosts.value)
      && (forall ip :: ip in hosts.value <==> IsHost(p, ToUint32(gateway), ToUint32(ip)))
      && |hosts.value| == HostCount(p, ToUint32(gateway)) > 0
  {
    if p.bits < 8 || p.bits > 30 {
      return None;
    }
    Pow2Bounds(32 - p.bits);
    PrefixFits(p);
    assert 4 <= Span(p) <= 0x100_0000;
    assert Converted([], []) && Increasing([]);
    hide Pow2, Span, Masked, FromUint32, ToUint32, Converted, Increasing, Ascending, Wrap;
    var networkU32: Addr := Masked(p);
    var hostCount: Addr := Span(p) - 2;
    var gw := ToUint32(gateway);
    var out: seq<IPv4> := [];
    ghost var us: seq<Addr> := [];
    var i: Addr := 1;
    while i <= hostCount
      invariant 1 <= i <= hostCount + 1
      invariant Converted(out, us) && Increasing(us)
      invariant forall u: Addr :: u in us <==> networkU32 < u < networkU32 + i && u != gw
      invariant |us| == i - 1 - (if networkU32 < gw < networkU32 + i then 1 else 0)
    {
      var ipU := Wrap(networkU32 + i);
      if ipU != gw {
        assert forall k :: 0 <= k < |us| ==> us[k] in us;
        ConvertedAppend(out, us, ipU);
        out := out + [FromUint32(ipU)];
        us := us + [ipU];
      }
      i := i + 1;
    }
    ConvertedInOrder(out, us);
    return Some(out);
  }

  /** 32-bit addition discards the carry. */
  function Wrap(n: nat): (u: Addr)
    ensures n < WORD ==> u == n
  {
    n % WORD
  }

  // ---- Counting the hosts as a set -----------------------------------------------------------

  predicate Inside(lo: int, u: Addr, hi: int) {
    lo < u < hi
  }

  function Interval(lo: int, hi: int): set<Addr> {
    set u: Addr | lo < u < hi && Inside(lo, u, hi)
  }

  lemma {:induction false} IntervalSize(lo: int, hi: int)
    requires 0 <= lo < hi <= WORD
    ensures |Interval(lo, hi)| == hi - lo - 1
    decreases hi - lo
  {
    if hi == lo + 1 {
      assert Interval(lo, hi) == {};
    } else {
      var last: Addr := hi - 1;
      assert Interval(lo, hi) == Interval(lo, hi - 1) + {last};
      IntervalSize(lo, hi - 1);
    }
  }

  lemma HostSetSize(p: Prefix, gateway: Addr)
    requires Supported(p)
    ensures |HostSet(p, gateway)| == HostCount(p, gateway) > 0
  {
    Pow2Bounds(32 - p.bits);
    PrefixFits(p);
    var all := Interval(Masked(p), Masked(p) + Span(p) - 1);
    IntervalSize(Masked(p), Masked(p) + Span(p) - 1);
    assert HostSet(p, gateway) == all - {gateway};
  }
}
