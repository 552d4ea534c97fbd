/**
 Addresses and subnets as the byte slices the allocator works on, and what the byte loops mean as
 integers: the successor of an address, the broadcast address, and masked containment.
 */
module Ipv4 {
  import opened Common

  type Byte = b: int | 0 <= b < 256
  type Bytes = seq<Byte>

  /** The big-endian value of a byte string. */
  function Val(s: Bytes): nat {
    if s == [] then 0 else Val(s[..|s| - 1]) * 256 + s[|s| - 1]
  }

  /** 256 to the power n: how many byte strings of length n there are. */
  function Span(n: nat): (r: nat)
    ensures r > 0
  {
    if n == 0 then 1 else 256 * Span(n - 1)
  }

  /** The n-byte string whose value is v. */
  function FromVal(n: nat, v: nat): (s: Bytes)
    ensures |s| == n
  {
    if n == 0 then [] else FromVal(n - 1, v / 256) + [v % 256]
  }

  lemma {:induction false} ValBound(s: Bytes)
    ensures Val(s) < Span(|s|)
  {
    if s != [] {
      ValBound(s[..|s| - 1]);
    }
  }

  lemma {:induction false} ValFromVal(n: nat, v: nat)
    requires v < Span(n)
    ensures Val(FromVal(n, v)) == v
  {
    if n > 0 {
      assert v / 256 < Span(n - 1);
      ValFromVal(n - 1, v / 256);
      assert FromVal(n, v)[..n - 1] == FromVal(n - 1, v / 256);
    }
  }

  /** Byte strings of one length are determined by their values. */
  lemma {:induction false} ValInjective(a: Bytes, b: Bytes)
    requires |a| == |b| && Val(a) == Val(b)
    ensures a == b
  {
    if a != [] {
      var n := |a| - 1;
      ValInjective(a[..n], b[..n]);
      assert a == a[..n] + [a[n]] && b == b[..n] + [b[n]];
    }
  }

  // ----- nextIP

  /** The bytes after one round of the carry loop, from the last byte backwards. */
  function Next(s: Bytes): (r: Bytes)
    ensures |r| == |s|
  {
    if s == [] then []
    else
      var init, last := s[..|s| - 1], s[|s| - 1];
      if last == 255 then Next(init) + [0] else init + [last + 1]
  }

  /** The carry loop adds one and wraps past the last address of that length. */
  lemma {:induction false} NextWraps(s: Bytes)
    ensures Val(Next(s)) == if Val(s) + 1 == Span(|s|) then 0 else Val(s) + 1
  {
    if s != [] {
      var n := |s| - 1;
      ValBound(s[..n]);
      if s[n] == 255 {
        NextWraps(s[..n]);
        assert Next(s)[..n] == Next(s[..n]);
      } else {
        assert Next(s)[..n] == s[..n];
      }
    }
  }

  /** The carry loop is addition of one modulo 256 to the length. */
  lemma NextIsSuccessor(s: Bytes)
    ensures Val(Next(s)) == (Val(s) + 1) % Span(|s|)
  {
    NextWraps(s);
    ValBound(s);
    var v, m := Val(s) + 1, Span(|s|);
    QuotientUnique(v, m, if v == m then 1 else 0, if v == m then 0 else v);
  }

  lemma {:induction false} NextAllOnes(s: Bytes, i: nat)
    requires i < |s|
    requires forall k :: i < k < |s| ==> s[k] == 255
    ensures Next(s) == Next(s[..i + 1]) + seq(|s| - i - 1, _ => 0)
  {
    if i == |s| - 1 {
      assert s[..i + 1] == s;
    } else {
      var init := s[..|s| - 1];
      NextAllOnes(init, i);
      assert init[..i + 1] == s[..i + 1];
      var zeros: Bytes := seq(|init| - i - 1, _ => 0);
      assert zeros + [0] == seq(|s| - i - 1, _ => 0);
    }
  }

  /** The state of the carry loop before it treats byte i: everything after i has wrapped to zero. */
  ghost predicate Carrying(was: Bytes, now: Bytes, i: int) {
    && |now| == |was| && -1 <= i < |was|
    && (forall k :: 0 <= k <= i ==> now[k] == was[k])
    && (forall k :: i < k < |was| ==> was[k] == 255 && now[k] == 0)
  }

  lemma CarryStops(was: Bytes, now: Bytes, i: int)
    requires Carrying(was, now, i)
    requires i >= 0 ==> was[i] != 255
    ensures i >= 0 ==> now[i := was[i] + 1] == Next(was)
    ensures i < 0 ==> now == Next(was)
  {
    if i >= 0 {
      var zeros: Bytes := seq(|was| - i - 1, _ => 0);
      NextAllOnes(was, i);
      assert was[..i + 1][..i] == was[..i];
      assert Next(was[..i + 1]) == was[..i] + [was[i] + 1];
      var b := was[i] + 1;
      assert now[i := b] == was[..i] + [b] + zeros;
    } else if |was| > 0 {
      NextAllOnes(was, 0);
      assert Next(was[..1]) == [0];
      assert now == [0] + seq(|was| - 1, _ => 0);
    }
  }

  /** Copies the address and carries from the last byte; the argument is only read. */
  method NextIP(ip: array<Byte>) returns (dup: array<Byte>)
    ensures fresh(dup) && dup.Length == ip.Length
    ensures dup[..] == Next(ip[..])
  {
    ghost var was := ip[..];
    dup := new Byte[ip.Length](i requires 0 <= i < ip.Length reads ip => ip[i]);
    var i := dup.Length - 1;
    while i >= 0
      invariant dup.Length == |was|
      invariant Carrying(was, dup[..], i)
    {
      ghost var before := dup[..];
      dup[i] := (dup[i] as int + 1) % 256;
      assert dup[..] == before[i := dup[i]];
      if dup[i] != 0 {
        CarryStops(was, before, i);
        return;
      }
      i := i - 1;
    }
    CarryStops(was, dup[..], i);
  }

  // ----- bitwise operations on bytes

  /** Bitwise conjunction of the w low bits. */
  function And(a: nat, b: nat, w: nat): (r: nat)
    ensures r < Pow2(w)
  {
    if w == 0 then 0 else 2 * And(a / 2, b / 2, w - 1) + if a % 2 == 1 && b % 2 == 1 then 1 else 0
  }

  /** Bitwise disjunction of the w low bits. */
  function Or(a: nat, b: nat, w: nat): (r: nat)
    ensures r < Pow2(w)
  {
    if w == 0 then 0
    else 2 * Or(a / 2, b / 2, w - 1) + if a % 2 == 1 || b % 2 == 1 then 1 else 0
  }

  function AndByte(a: Byte, b: Byte): Byte {
    Pow2At8();
    And(a, b, 8)
  }

  function OrByte(a: Byte, b: Byte): Byte {
    Pow2At8();
    Or(a, b, 8)
  }

  function NotByte(a: Byte): Byte {
    255 - a
  }

  lemma ModDouble(x: nat, s: nat)
    requires s > 0
    ensures x % (2 * s) == 2 * ((x / 2) % s) + x % 2
  {
    var q, r := (x / 2) / s, (x / 2) % s;
    assert x == (2 * s) * q + (2 * r + x % 2);
    QuotientUnique(x, 2 * s, q, 2 * r + x % 2);
  }

  /** Masking with h low bits clear rounds down to a multiple of 2^h. */
  lemma {:induction false} AndPrefix(x: nat, h: nat, w: nat)
    requires h <= w && x < Pow2(w)
    ensures Pow2(h) <= Pow2(w)
    ensures And(x, Pow2(w) - Pow2(h), w) == x - x % Pow2(h)
    decreases w
  {
    if w > 0 {
      var m := Pow2(w) - Pow2(h);
      if h == 0 {
        AndPrefix(x / 2, 0, w - 1);
        assert m / 2 == Pow2(w - 1) - 1 && m % 2 == 1;
      } else {
        AndPrefix(x / 2, h - 1, w - 1);
        ModDouble(x, Pow2(h - 1));
        assert m / 2 == Pow2(w - 1) - Pow2(h - 1) && m % 2 == 0;
      }
    }
  }

  /** Setting the h low bits of a multiple of 2^h adds 2^h - 1. */
  lemma {:induction false} OrSuffix(b: nat, h: nat, w: nat)
    requires h <= w && b < Pow2(w) && b % Pow2(h) == 0
    ensures Or(b, Pow2(h) - 1, w) == b + Pow2(h) - 1
    decreases w
  {
    if w > 0 {
      var m := Pow2(h) - 1;
      if h == 0 {
        OrSuffix(b / 2, 0, w - 1);
      } else {
        ModDouble(b, Pow2(h - 1));
        assert b % 2 == 0 && (b / 2) % Pow2(h - 1) == 0;
        OrSuffix(b / 2, h - 1, w - 1);
        assert m / 2 == Pow2(h - 1) - 1 && m % 2 == 1;
      }
    }
  }

  lemma Pow2Small()
    ensures Pow2(0) == 1 && Pow2(1) == 2 && Pow2(2) == 4 && Pow2(3) == 8 && Pow2(4) == 16
    ensures Pow2(5) == 32 && Pow2(6) == 64 && Pow2(7) == 128 && Pow2(8) == 256
  {
    assert Pow2(2) == 4;
    assert Pow2(4) == 16;
    assert Pow2(6) == 64;
  }

  /** The bytes that agree with an aligned byte under a mask with h host bits form an interval. */
  lemma MaskedByte(h: nat, m: Byte, b: Byte, x: Byte)
    requires h <= 8 && m == 256 - Pow2(h) && AndByte(b, m) == b
    ensures OrByte(b, NotByte(m)) == b + Pow2(h) - 1
    ensures AndByte(b, m) == AndByte(x, m) <==> b <= x <= b + Pow2(h) - 1
  {
    Pow2Small();
    AndPrefix(b, h, 8);
    AndPrefix(x, h, 8);
    OrSuffix(b, h, 8);
    RoundDown(Pow2(h), b, x);
  }

  lemma RoundDown(s: nat, b: nat, x: nat)
    requires s > 0 && b % s == 0
    ensures x - x % s == b <==> b <= x <= b + s - 1
  {
    if b <= x <= b + s - 1 {
      QuotientUnique(x, s, b / s, x - b);
    }
  }

  // ----- subnets

  /** A mask whose p high bits are the set ones; a byte with k high bits set has the value 256 - 2^(8-k). */
  ghost predicate IsPrefixMask(mask: Bytes, p: nat) {
    var n := |mask| - 1;
    if mask == [] then p == 0
    else if p <= 8 * n then IsPrefixMask(mask[..n], p) && mask[n] == 0
    else p <= 8 * n + 8 && IsPrefixMask(mask[..n], 8 * n) && mask[n] == 256 - Pow2(8 * n + 8 - p)
  }

  ghost predicate HostBitsClear(ip: Bytes, mask: Bytes)
    requires |ip| == |mask|
  {
    var n := |ip| - 1;
    ip == [] || (HostBitsClear(ip[..n], mask[..n]) && AndByte(ip[n], mask[n]) == ip[n])
  }

  datatype Subnet = Subnet(ip: Bytes, mask: Bytes)

  /** What parsing a CIDR block of n-byte addresses with prefix length p yields: the mask is the
      prefix mask and the network address has no bit outside it. */
  ghost predicate IsSubnet(sn: Subnet, n: nat, p: nat) {
    && |sn.ip| == |sn.mask| == n
    && IsPrefixMask(sn.mask, p)
    && HostBitsClear(sn.ip, sn.mask)
  }

  /** The network address with every host bit set. */
  function Broadcast(ip: Bytes, mask: Bytes): (b: Bytes)
    requires |ip| == |mask|
    ensures |b| == |ip|
  {
    var n := |ip| - 1;
    if ip == [] then [] else Broadcast(ip[..n], mask[..n]) + [OrByte(ip[n], NotByte(mask[n]))]
  }

  lemma {:induction false} BroadcastAt(ip: Bytes, mask: Bytes, i: nat)
    requires i < |ip| == |mask|
    ensures Broadcast(ip, mask)[i] == OrByte(ip[i], NotByte(mask[i]))
  {
    var n := |ip| - 1;
    if i < n {
      BroadcastAt(ip[..n], mask[..n], i);
    }
  }

  /** Sets the host bits of a copy of the network address, byte by byte. */
  method BroadcastIP(sn: Subnet) returns (broadcast: array<Byte>)
    requires |sn.mask| == |sn.ip|
    ensures fresh(broadcast)
    ensures broadcast[..] == Broadcast(sn.ip, sn.mask)
  {
    broadcast := new Byte[|sn.ip|](i requires 0 <= i < |sn.ip| => sn.ip[i]);
    ghost var full := Broadcast(sn.ip, sn.mask);
    var i := 0;
    while i < broadcast.Length
      invariant 0 <= i <= broadcast.Length == |full|
      invariant forall k :: 0 <= k < i ==> broadcast[k] == full[k]
      invariant forall k :: i <= k < broadcast.Length ==> broadcast[k] == sn.ip[k]
    {
      BroadcastAt(sn.ip, sn.mask, i);
      broadcast[i] := OrByte(broadcast[i], NotByte(sn.mask[i]));
      i := i + 1;
    }
  }

  /** The 4-byte form of an address, when it has one: itself, or the tail of a v4-in-v6 address. */
  function To4(ip: Bytes): (r: Option<Bytes>)
    ensures r.Some? ==> |r.value| == 4
  {
    if |ip| == 4 then Some(ip)
    else if |ip| == 16 && ip[..12] == [0, 0, 0, 0, 0, 0, 0, 0, 0, 0, 0xFF, 0xFF] then Some(ip[12..])
    else None
  }

  /** The form under which an address is printed, compared and stored. */
  function Canonical(ip: Bytes): Bytes {
    var v4 := To4(ip);
    if v4.Some? then v4.value else ip
  }

  /** Every byte agrees under the mask. */
  predicate MaskedEqual(a: Bytes, b: Bytes, mask: Bytes)
    requires |a| == |b| == |mask|
  {
    var n := |a| - 1;
    a == [] || (MaskedEqual(a[..n], b[..n], mask[..n]) && AndByte(a[n], mask[n]) == AndByte(b[n], mask[n]))
  }

  predicate Contains(sn: Subnet, ip: Bytes)
    requires |sn.mask| == |sn.ip|
  {
    var x := Canonical(ip);
    |x| == |sn.ip| && MaskedEqual(sn.ip, x, sn.mask)
  }

  // ----- the subnet as an interval

  /** How many host bits the last byte of an n+1 byte address has. */
  ghost function HostBits(n: nat, p: nat): nat
    requires p <= 8 * n + 8
  {
    if p <= 8 * n then 8 else 8 * n + 8 - p
  }

  /** What the last byte adds to a subnet. */
  lemma SubnetSnoc(ip: Bytes, mask: Bytes, p: nat, n: nat)
    requires IsSubnet(Subnet(ip, mask), n + 1, p)
    ensures p <= 8 * n + 8
    ensures IsSubnet(Subnet(ip[..n], mask[..n]), n, if p <= 8 * n then p else 8 * n)
    ensures p <= 8 * n ==> ip[n] == 0
    ensures Broadcast(ip, mask)[..n] == Broadcast(ip[..n], mask[..n])
    ensures Broadcast(ip, mask)[n] == ip[n] + Pow2(HostBits(n, p)) - 1
  {
    Pow2At8();
    MaskedByte(HostBits(n, p), mask[n], ip[n], 0);
    if p <= 8 * n {
      MaskEnds(ip[n], mask[n]);
    }
  }

  lemma MaskedSnoc(ip: Bytes, mask: Bytes, p: nat, x: Bytes, n: nat)
    requires IsSubnet(Subnet(ip, mask), n + 1, p) && |x| == n + 1
    ensures AndByte(ip[n], mask[n]) == AndByte(x[n], mask[n]) <==> ip[n] <= x[n] <= Broadcast(ip, mask)[n]
  {
    Pow2At8();
    SubnetSnoc(ip, mask, p, n);
    MaskedByte(HostBits(n, p), mask[n], ip[n], x[n]);
  }

  /** The bytes of a network address and of its broadcast address, without the mask: host bytes go from 0
      to 255, network bytes agree, and the byte at the boundary spans its host bits. */
  ghost predicate Spread(ip: Bytes, b: Bytes, p: nat) {
    var n := |ip| - 1;
    && |b| == |ip|
    && if ip == [] then p == 0
       else
         && p <= 8 * n + 8
         && Spread(ip[..n], b[..n], if p <= 8 * n then p else 8 * n)
         && (p <= 8 * n ==> ip[n] == 0)
         && b[n] == ip[n] + Pow2(HostBits(n, p)) - 1
  }

  lemma {:induction false} SubnetSpreads(ip: Bytes, mask: Bytes, p: nat)
    requires IsSubnet(Subnet(ip, mask), |ip|, p)
    ensures Spread(ip, Broadcast(ip, mask), p)
  {
    if ip != [] {
      var n := |ip| - 1;
      SubnetSnoc(ip, mask, p, n);
      SubnetSpreads(ip[..n], mask[..n], if p <= 8 * n then p else 8 * n);
    }
  }

  lemma {:induction false} SpreadValue(ip: Bytes, b: Bytes, p: nat)
    requires Spread(ip, b, p)
    ensures p <= 8 * |ip|
    ensures Val(b) == Val(ip) + Pow2(8 * |ip| - p) - 1
  {
    if ip != [] {
      var n := |ip| - 1;
      SpreadValue(ip[..n], b[..n], if p <= 8 * n then p else 8 * n);
      if p <= 8 * n {
        Pow2Plus8(8 * n - p);
        Pow2At8();
        assert 8 * |ip| - p == (8 * n - p) + 8;
      }
    }
  }

  /** The broadcast address is the network address plus the number of hosts minus one. */
  lemma BroadcastValue(ip: Bytes, mask: Bytes, p: nat)
    requires IsSubnet(Subnet(ip, mask), |ip|, p)
    ensures p <= 8 * |ip|
    ensures Val(Broadcast(ip, mask)) == Val(ip) + Pow2(8 * |ip| - p) - 1
  {
    SubnetSpreads(ip, mask, p);
    SpreadValue(ip, Broadcast(ip, mask), p);
  }

  /** Every byte lies between those of two bounds. */
  ghost predicate Within(ip: Bytes, b: Bytes, x: Bytes)
    requires |ip| == |b| == |x|
  {
    var n := |ip| - 1;
    ip == [] || (Within(ip[..n], b[..n], x[..n]) && ip[n] <= x[n] <= b[n])
  }

  lemma {:induction false} MaskedIsWithin(ip: Bytes, mask: Bytes, p: nat, x: Bytes)
    requires IsSubnet(Subnet(ip, mask), |ip|, p) && |x| == |ip|
    ensures MaskedEqual(ip, x, mask) <==> Within(ip, Broadcast(ip, mask), x)
  {
    if ip != [] {
      var n := |ip| - 1;
      SubnetSnoc(ip, mask, p, n);
      MaskedSnoc(ip, mask, p, x, n);
      MaskedIsWithin(ip[..n], mask[..n], if p <= 8 * n then p else 8 * n, x[..n]);
    }
  }

  lemma {:induction false} WithinIsInterval(ip: Bytes, b: Bytes, p: nat, x: Bytes)
    requires Spread(ip, b, p) && |x| == |ip|
    ensures Within(ip, b, x) <==> Val(ip) <= Val(x) <= Val(b)
  {
    if ip != [] {
      var n := |ip| - 1;
      var q := if p <= 8 * n then p else 8 * n;
      WithinIsInterval(ip[..n], b[..n], q, x[..n]);
      SpreadValue(ip[..n], b[..n], q);
      assert p <= 8 * n ==> b[n] == 255 by {
        Pow2At8();
      }
      IntervalStep(p <= 8 * n, Val(ip[..n]), Val(x[..n]), Val(b[..n]), ip[n], x[n], b[n]);
    }
  }

  /** An address is contained exactly when it lies between the network and the broadcast address. */
  lemma ContainmentIsInterval(ip: Bytes, mask: Bytes, p: nat, x: Bytes)
    requires IsSubnet(Subnet(ip, mask), |ip|, p) && |x| == |ip|
    ensures MaskedEqual(ip, x, mask) <==> Val(ip) <= Val(x) <= Val(Broadcast(ip, mask))
  {
    MaskedIsWithin(ip, mask, p, x);
    SubnetSpreads(ip, mask, p);
    WithinIsInterval(ip, Broadcast(ip, mask), p, x);
  }

  /** A full mask byte keeps the byte, an empty one leaves every value. */
  lemma MaskEnds(x: Byte, m: Byte)
    ensures m == 255 ==> AndByte(x, m) == x && OrByte(x, NotByte(m)) == x
    ensures m == 0 ==> AndByte(x, m) == 0
    ensures m == 0 && x == 0 ==> OrByte(x, NotByte(m)) == 255
  {
    Pow2At8();
    if m == 255 {
      AndPrefix(x, 0, 8);
      OrSuffix(x, 0, 8);
    } else if m == 0 {
      AndPrefix(x, 8, 8);
      if x == 0 {
        OrSuffix(x, 8, 8);
      }
    }
  }

  /** Appending a byte under a full mask byte. */
  lemma SnocFull(ip: Bytes, mask: Bytes, x: Byte, m: Byte)
    requires IsSubnet(Subnet(ip, mask), |ip|, 8 * |ip|) && m == 255
    ensures IsSubnet(Subnet(ip + [x], mask + [m]), |ip| + 1, 8 * |ip| + 8)
    ensures Broadcast(ip + [x], mask + [m]) == Broadcast(ip, mask) + [x]
  {
    MaskEnds(x, m);
    var i', m' := ip + [x], mask + [m];
    assert i'[..|ip|] == ip && m'[..|ip|] == mask;
  }

  /** Appending a host byte. */
  lemma SnocHost(ip: Bytes, mask: Bytes, p: nat, x: Byte, m: Byte)
    requires IsSubnet(Subnet(ip, mask), |ip|, p) && p <= 8 * |ip| && x == 0 && m == 0
    ensures IsSubnet(Subnet(ip + [x], mask + [m]), |ip| + 1, p)
    ensures Broadcast(ip + [x], mask + [m]) == Broadcast(ip, mask) + [255]
  {
    MaskEnds(x, m);
    var i', m' := ip + [x], mask + [m];
    assert i'[..|ip|] == ip && m'[..|ip|] == mask;
  }

  /** One byte of the interval argument, on the values: `hi` is the broadcast of the leading bytes and
      `bl` that of the last one. */
  lemma IntervalStep(free: bool, lo: nat, x: nat, hi: nat, ll: nat, xl: nat, bl: nat)
    requires ll < 256 && xl < 256 && bl < 256 && lo <= hi
    requires free ==> ll == 0 && bl == 255
    requires !free ==> lo == hi
    ensures lo * 256 + ll <= x * 256 + xl <= hi * 256 + bl <==> lo <= x <= hi && ll <= xl <= bl
  {
  }
}
