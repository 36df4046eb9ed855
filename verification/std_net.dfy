/**
  The host address types of Rust's `std::net`, as the classifier sees them:
  an IPv4 address is its four octets, an IPv6 address its eight 16-bit
  segments, and `IpAddr` holds exactly one of the two.

  The standard library's own predicates (`is_private`, `is_loopback`, ...)
  are called by the classifier but are not part of it. Each is given here a
  body that follows the standard library's documentation; these bodies are
  assumptions about code outside the model, not a model of it.
*/
module StdNet {

  type Octet = bv8
  type Segment = bv16

  type Octets = s: seq<Octet> | |s| == 4 witness [0, 0, 0, 0]
  type Segments = s: seq<Segment> | |s| == 8 witness [0, 0, 0, 0, 0, 0, 0, 0]

  datatype Ipv4Addr = Ipv4Addr(octets: Octets)
  datatype Ipv6Addr = Ipv6Addr(segments: Segments)
  datatype IpAddr = V4(v4: Ipv4Addr) | V6(v6: Ipv6Addr)

  /** `u32::from(addr)`: the four octets read as one big-endian 32-bit word. */
  function ToU32(a: Ipv4Addr): (v: bv32)
    ensures (v >> 24) as bv8 == a.octets[0]
    ensures (v >> 16) & 0xff == a.octets[1] as bv32
    ensures (v >> 8) & 0xff == a.octets[2] as bv32
    ensures v & 0xff == a.octets[3] as bv32
  {
    ((a.octets[0] as bv32) << 24)
    | ((a.octets[1] as bv32) << 16)
    | ((a.octets[2] as bv32) << 8)
    | (a.octets[3] as bv32)
  }

  /** `Ipv4Addr::from(u32)`: the inverse of `ToU32`. */
  function FromU32(v: bv32): (a: Ipv4Addr)
    ensures ToU32(a) == v
  {
    Ipv4Addr([(v >> 24) as bv8, ((v >> 16) & 0xff) as bv8,
              ((v >> 8) & 0xff) as bv8, (v & 0xff) as bv8])
  }

  /** Distinct addresses have distinct 32-bit values, so comparing `ToU32`
      against a literal is comparing the octets. */
  lemma ToU32Injective(a: Ipv4Addr, b: Ipv4Addr)
    ensures ToU32(a) == ToU32(b) <==> a == b
  {
  }

  /** `u128::from(addr)`: the eight segments read as one big-endian 128-bit word. */
  function ToU128(a: Ipv6Addr): (v: bv128)
    ensures (v >> 112) as bv16 == a.segments[0]
    ensures ((v >> 96) & 0xffff) as bv16 == a.segments[1]
  {
    var s := a.segments;
    ((s[0] as bv128) << 112) | ((s[1] as bv128) << 96)
    | ((s[2] as bv128) << 80) | ((s[3] as bv128) << 64)
    | ((s[4] as bv128) << 48) | ((s[5] as bv128) << 32)
    | ((s[6] as bv128) << 16) | (s[7] as bv128)
  }

  // ---- IPv4 predicates of the standard library (assumed) ----

  /** RFC 1918: 10.0.0.0/8, 172.16.0.0/12 and 192.168.0.0/16. */
  predicate IsPrivate(a: Ipv4Addr)
  {
    var o := a.octets;
    o[0] == 10 || (o[0] == 172 && 16 <= o[1] <= 31) || (o[0] == 192 && o[1] == 168)
  }

  /** 127.0.0.0/8. */
  predicate IsLoopback(a: Ipv4Addr)
  {
    a.octets[0] == 127
  }

  /** 169.254.0.0/16. */
  predicate IsLinkLocal(a: Ipv4Addr)
  {
    a.octets[0] == 169 && a.octets[1] == 254
  }

  /** 255.255.255.255, compared as a 32-bit word. */
  predicate IsBroadcast(a: Ipv4Addr)
  {
    ToU32(a) == 0xffff_ffff
  }

  /** RFC 5737: 192.0.2.0/24, 198.51.100.0/24 and 203.0.113.0/24. */
  predicate IsDocumentation(a: Ipv4Addr)
  {
    var o := a.octets;
    (o[0] == 192 && o[1] == 0 && o[2] == 2)
    || (o[0] == 198 && o[1] == 51 && o[2] == 100)
    || (o[0] == 203 && o[1] == 0 && o[2] == 113)
  }

  // ---- IPv6 predicates of the standard library (assumed) ----

  /** ff00::/8. */
  predicate IsMulticast(a: Ipv6Addr)
  {
    (a.segments[0] & 0xff00) == 0xff00
  }

  /** ::1, compared as a 128-bit word. */
  predicate IsLoopback6(a: Ipv6Addr)
  {
    ToU128(a) == 1
  }

  /** ::, compared as a 128-bit word. */
  predicate IsUnspecified(a: Ipv6Addr)
  {
    ToU128(a) == 0
  }
}
