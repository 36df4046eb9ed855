/**
  The IPv4 half of the classifier: the four special-use predicates of
  `Ipv4AddrExt` and the IPv4 `is_global`, a veto list over them and the
  standard library's predicates with two hard-coded carve-outs.
*/
module Ipv4Ext {
  import opened StdNet
  import opened Blocks

  /** The address `a.b.c.d`. */
  function Addr4(a: Octet, b: Octet, c: Octet, d: Octet): Ipv4Addr
  {
    Ipv4Addr([a, b, c, d])
  }

  // ---- The special-purpose blocks, as CIDR prefixes ----

  /** 0.0.0.0/8, "this network" (the first-octet-zero test). */
  const THIS_NETWORK := Prefix4(0x0000_0000, 8)
  /** 10.0.0.0/8, 172.16.0.0/12, 192.168.0.0/16 (RFC 1918). */
  const PRIVATE := [Prefix4(0x0a00_0000, 8), Prefix4(0xac10_0000, 12), Prefix4(0xc0a8_0000, 16)]
  /** 127.0.0.0/8. */
  const LOOPBACK := Prefix4(0x7f00_0000, 8)
  /** 169.254.0.0/16. */
  const LINK_LOCAL := Prefix4(0xa9fe_0000, 16)
  /** 255.255.255.255/32, limited broadcast. */
  const BROADCAST := Prefix4(0xffff_ffff, 32)
  /** 192.0.2.0/24, 198.51.100.0/24, 203.0.113.0/24 (RFC 5737). */
  const DOCUMENTATION := [Prefix4(0xc000_0200, 24), Prefix4(0xc633_6400, 24), Prefix4(0xcb00_7100, 24)]
  /** 100.64.0.0/10, shared address space (RFC 6598). */
  const SHARED := Prefix4(0x6440_0000, 10)
  /** 192.0.0.0/24, IETF protocol assignments (section 2.2.2 of RFC 6890). */
  const IETF_PROTOCOL_ASSIGNMENTS := Prefix4(0xc000_0000, 24)
  /** 240.0.0.0/4, reserved for future use. */
  const RESERVED := Prefix4(0xf000_0000, 4)
  /** 198.18.0.0/15, benchmarking (RFC 2544). */
  const BENCHMARKING := Prefix4(0xc612_0000, 15)

  /** Every block the classifier treats as not globally reachable. */
  const NON_GLOBAL: seq<Prefix4> :=
    PRIVATE + [LOOPBACK, LINK_LOCAL, BROADCAST] + DOCUMENTATION
    + [SHARED, IETF_PROTOCOL_ASSIGNMENTS, RESERVED, BENCHMARKING, THIS_NETWORK]

  /** 192.0.0.9/32 and 192.0.0.10/32: globally reachable assignments inside
      192.0.0.0/24. */
  const CARVE_OUTS: seq<Prefix4> := [Prefix4(0xc000_0009, 32), Prefix4(0xc000_000a, 32)]

  // ---- Ipv4AddrExt ----

  /** `is_shared`: 100.64.0.0/10, tested as "first octet 100 and the top two
      bits of the second octet are 01". */
  function IsShared(a: Ipv4Addr): (r: bool)
    ensures r <==> a.octets[0] == 100 && 64 <= a.octets[1] <= 127
    ensures r <==> SHARED.Contains(ToU32(a))
  {
    a.octets[0] == 100 && (a.octets[1] & 0xc0) == 0x40
  }

  /** `is_ietf_protocol_assignment`: 192.0.0.0/24, tested octet by octet. */
  function IsIetfProtocolAssignment(a: Ipv4Addr): (r: bool)
    ensures r <==> IETF_PROTOCOL_ASSIGNMENTS.Contains(ToU32(a))
    ensures r <==> 0xc000_0000 <= ToU32(a) <= 0xc000_00ff
  {
    a.octets[0] == 192 && a.octets[1] == 0 && a.octets[2] == 0
  }

  /** `is_reserved`: 240.0.0.0/4 (top four bits of the first octet set),
      except the limited broadcast address. */
  function IsReserved(a: Ipv4Addr): (r: bool)
    ensures r <==> 240 <= a.octets[0] && a.octets != [255, 255, 255, 255]
    ensures r <==> RESERVED.Contains(ToU32(a)) && !BROADCAST.Contains(ToU32(a))
  {
    (a.octets[0] & 240) == 240 && !IsBroadcast(a)
  }

  /** `is_benchmarking`: 198.18.0.0/15, tested as "first octet 198 and the
      second octet with its low bit cleared is 18". */
  function IsBenchmarking(a: Ipv4Addr): (r: bool)
    ensures r <==> a.octets[0] == 198 && (a.octets[1] == 18 || a.octets[1] == 19)
    ensures r <==> BENCHMARKING.Contains(ToU32(a))
  {
    a.octets[0] == 198 && (a.octets[1] & 0xfe) == 18
  }

  // ---- IpExt for Ipv4Addr ----

  /** `is_global`: the two carve-outs, compared as 32-bit words, win;
      otherwise no vetoing predicate may hold and the first octet must not
      be 0. */
  function IsGlobal(a: Ipv4Addr): (r: bool)
    ensures a.octets == [192, 0, 0, 9] || a.octets == [192, 0, 0, 10] ==> r
    ensures IsShared(a) || IsIetfProtocolAssignment(a) || IsReserved(a)
            || IsBenchmarking(a) || a.octets[0] == 0
            ==> (r <==> a.octets == [192, 0, 0, 9] || a.octets == [192, 0, 0, 10])
  {
    if ToU32(a) == 0xc000_0009 || ToU32(a) == 0xc000_000a then
      true
    else
      !IsPrivate(a)
      && !IsLoopback(a)
      && !IsLinkLocal(a)
      && !IsBroadcast(a)
      && !StdNet.IsDocumentation(a)
      && !IsShared(a)
      && !IsIetfProtocolAssignment(a)
      && !IsReserved(a)
      && !IsBenchmarking(a)
      && a.octets[0] != 0
  }

  // ---- Agreement with the block registry ----

  // The standard library's assumed predicates are the blocks above.

  lemma PrivateIsBlocks(a: Ipv4Addr)
    ensures IsPrivate(a) <==> InAny4(ToU32(a), PRIVATE)
  {
    InAny4Three(ToU32(a), Prefix4(0x0a00_0000, 8), Prefix4(0xac10_0000, 12), Prefix4(0xc0a8_0000, 16));
  }

  lemma DocumentationIsBlocks(a: Ipv4Addr)
    ensures StdNet.IsDocumentation(a) <==> InAny4(ToU32(a), DOCUMENTATION)
  {
    InAny4Three(ToU32(a), Prefix4(0xc000_0200, 24), Prefix4(0xc633_6400, 24), Prefix4(0xcb00_7100, 24));
  }

  lemma LoopbackIsBlock(a: Ipv4Addr)
    ensures IsLoopback(a) <==> LOOPBACK.Contains(ToU32(a))
  {
  }

  lemma LinkLocalIsBlock(a: Ipv4Addr)
    ensures IsLinkLocal(a) <==> LINK_LOCAL.Contains(ToU32(a))
  {
  }

  lemma BroadcastIsBlock(a: Ipv4Addr)
    ensures IsBroadcast(a) <==> BROADCAST.Contains(ToU32(a))
  {
  }

  lemma ThisNetworkIsBlock(a: Ipv4Addr)
    ensures a.octets[0] == 0 <==> THIS_NETWORK.Contains(ToU32(a))
  {
  }

  /** Lying in some non-global block is exactly what the veto list of
      `is_global` tests. */
  lemma NonGlobalIsVetoList(a: Ipv4Addr)
    ensures InAny4(ToU32(a), NON_GLOBAL) <==>
            IsPrivate(a) || IsLoopback(a) || IsLinkLocal(a) || IsBroadcast(a)
            || StdNet.IsDocumentation(a) || IsShared(a) || IsIetfProtocolAssignment(a)
            || IsReserved(a) || IsBenchmarking(a) || a.octets[0] == 0
  {
    var v := ToU32(a);
    PrivateIsBlocks(a);
    DocumentationIsBlocks(a);
    LoopbackIsBlock(a);
    LinkLocalIsBlock(a);
    BroadcastIsBlock(a);
    ThisNetworkIsBlock(a);
    var special := [LOOPBACK, LINK_LOCAL, BROADCAST];
    var tail := [SHARED, IETF_PROTOCOL_ASSIGNMENTS, RESERVED];
    var last := [BENCHMARKING, THIS_NETWORK];
    assert NON_GLOBAL == PRIVATE + special + DOCUMENTATION + (tail + last);
    InAny4Append(v, PRIVATE + special + DOCUMENTATION, tail + last);
    InAny4Append(v, PRIVATE + special, DOCUMENTATION);
    InAny4Append(v, PRIVATE, special);
    InAny4Append(v, tail, last);
    InAny4Three(v, LOOPBACK, LINK_LOCAL, BROADCAST);
    InAny4Three(v, SHARED, IETF_PROTOCOL_ASSIGNMENTS, RESERVED);
    InAny4Append(v, [BENCHMARKING], [THIS_NETWORK]);
    InAny4Single(v, BENCHMARKING);
    InAny4Single(v, THIS_NETWORK);
    assert IsReserved(a) || IsBroadcast(a) <==> RESERVED.Contains(v) || BROADCAST.Contains(v);
  }

  /** The carve-out list holds exactly the two words `is_global` compares
      against. */
  lemma CarveOutsAreWords(v: bv32)
    ensures InAny4(v, CARVE_OUTS) <==> v == 0xc000_0009 || v == 0xc000_000a
  {
    var p, q := Prefix4(0xc000_0009, 32), Prefix4(0xc000_000a, 32);
    assert CARVE_OUTS == [p] + [q];
    InAny4Append(v, [p], [q]);
    InAny4Single(v, p);
    InAny4Single(v, q);
    assert p.Contains(v) <==> v == 0xc000_0009;
    assert q.Contains(v) <==> v == 0xc000_000a;
  }

  /** IPv4 `is_global` is exactly: one of the two carve-outs, or in none of
      the non-global blocks. */
  lemma IsGlobalMatchesRegistry(a: Ipv4Addr)
    ensures IsGlobal(a) <==> InAny4(ToU32(a), CARVE_OUTS) || !InAny4(ToU32(a), NON_GLOBAL)
  {
    NonGlobalIsVetoList(a);
    CarveOutsAreWords(ToU32(a));
  }

  // ---- Boundary examples ----

  lemma SharedBoundaries()
    ensures IsShared(Addr4(100, 64, 0, 0))
    ensures IsShared(Addr4(100, 127, 255, 255))
    ensures !IsShared(Addr4(100, 63, 255, 255))
    ensures !IsShared(Addr4(100, 128, 0, 0))
  {
  }

  lemma IetfAndBenchmarkingBoundaries()
    ensures IsIetfProtocolAssignment(Addr4(192, 0, 0, 5))
    ensures !IsIetfProtocolAssignment(Addr4(192, 0, 1, 5))
    ensures IsBenchmarking(Addr4(198, 18, 0, 1))
    ensures IsBenchmarking(Addr4(198, 19, 255, 255))
    ensures !IsBenchmarking(Addr4(198, 20, 0, 0))
    ensures !IsBenchmarking(Addr4(198, 17, 255, 255))
  {
  }

  lemma ReservedBoundaries()
    ensures !IsReserved(Addr4(255, 255, 255, 255))
    ensures IsReserved(Addr4(255, 255, 255, 254))
    ensures IsReserved(Addr4(240, 0, 0, 1))
    ensures !IsReserved(Addr4(239, 255, 255, 255))
  {
  }

  lemma GlobalExamples()
    ensures IsGlobal(Addr4(192, 0, 0, 9)) && IsIetfProtocolAssignment(Addr4(192, 0, 0, 9))
    ensures IsGlobal(Addr4(192, 0, 0, 10)) && IsIetfProtocolAssignment(Addr4(192, 0, 0, 10))
    ensures !IsGlobal(Addr4(192, 0, 0, 8))
    ensures !IsGlobal(Addr4(0, 0, 0, 1))
    ensures IsGlobal(Addr4(8, 8, 8, 8))
  {
  }
}
