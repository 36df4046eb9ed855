/**
  The IPv6 half of the classifier: the multicast-scope decoder and the
  block predicates of `Ipv6AddrExt`, and the IPv6 `is_global`.
*/
module Ipv6Ext {
  import opened Wrappers
  import opened StdNet
  import opened Blocks

  /** The assigned scopes of an IPv6 multicast address (section 2.7 of
      RFC 4291). */
  datatype Ipv6MulticastScope =
    | InterfaceLocal
    | LinkLocal
    | RealmLocal
    | AdminLocal
    | SiteLocal
    | OrganizationLocal
    | Global

  /** The address `s0:s1:s2:s3:s4:s5:s6:s7`. */
  function Addr6(s0: Segment, s1: Segment, s2: Segment, s3: Segment,
                 s4: Segment, s5: Segment, s6: Segment, s7: Segment): Ipv6Addr
  {
    Ipv6Addr([s0, s1, s2, s3, s4, s5, s6, s7])
  }

  /** The 4-bit scope field: the low nibble of the first segment. */
  function ScopeField(a: Ipv6Addr): (f: Segment)
    ensures f < 16
  {
    a.segments[0] & 0x000f
  }

  /** The scope-field value RFC 4291 assigns to each scope; the encoding
      that `MulticastScope` decodes. */
  function ScopeValue(s: Ipv6MulticastScope): (f: Segment)
    ensures f in {1, 2, 3, 4, 5, 8, 14}
  {
    match s
    case InterfaceLocal => 1
    case LinkLocal => 2
    case RealmLocal => 3
    case AdminLocal => 4
    case SiteLocal => 5
    case OrganizationLocal => 8
    case Global => 14
  }

  // ---- The special-purpose blocks, as CIDR prefixes ----

  /** ff00::/8, multicast. */
  const MULTICAST := Prefix6(0xff00 << 112, 8)
  /** ::1/128, loopback. */
  const LOOPBACK := Prefix6(1, 128)
  /** ::/128, unspecified. */
  const UNSPECIFIED := Prefix6(0, 128)
  /** fe80::/10, link-scoped unicast (section 2.5.6 of RFC 4291). */
  const LINK_LOCAL := Prefix6(0xfe80 << 112, 10)
  /** fc00::/7, unique local (section 3.1 of RFC 4193). */
  const UNIQUE_LOCAL := Prefix6(0xfc00 << 112, 7)
  /** 2001:db8::/32, documentation (RFC 3849). */
  const DOCUMENTATION := Prefix6(0x2001_0db8 << 96, 32)

  /** Every block the classifier excludes from global unicast. */
  const NON_GLOBAL_UNICAST: seq<Prefix6> :=
    [MULTICAST, LOOPBACK, LINK_LOCAL] + [UNIQUE_LOCAL, UNSPECIFIED, DOCUMENTATION]

  // ---- Ipv6AddrExt ----

  /** `multicast_scope`: `None` off multicast; on multicast, the scope whose
      value is the scope field, or `None` for an unassigned value. */
  function MulticastScope(a: Ipv6Addr): (r: Option<Ipv6MulticastScope>)
    ensures !IsMulticast(a) ==> r == None
    ensures IsMulticast(a) ==> (r.Some? <==> ScopeField(a) in {1, 2, 3, 4, 5, 8, 14})
    ensures r.Some? ==> ScopeValue(r.value) == ScopeField(a)
  {
    if IsMulticast(a) then
      match a.segments[0] & 0x000f
      case 1 => Some(InterfaceLocal)
      case 2 => Some(LinkLocal)
      case 3 => Some(RealmLocal)
      case 4 => Some(AdminLocal)
      case 5 => Some(SiteLocal)
      case 8 => Some(OrganizationLocal)
      case 14 => Some(Global)
      case _ => None
    else
      None
  }

  /** `is_unicast_link_local`: fe80::/10, tested as a mask of the first segment. */
  function IsUnicastLinkLocal(a: Ipv6Addr): (r: bool)
    ensures r <==> 0xfe80 <= a.segments[0] <= 0xfebf
    ensures r <==> LINK_LOCAL.Contains(ToU128(a))
  {
    (a.segments[0] & 0xffc0) == 0xfe80
  }

  /** `is_unique_local`: fc00::/7, tested as a mask of the first segment. */
  function IsUniqueLocal(a: Ipv6Addr): (r: bool)
    ensures r <==> 0xfc00 <= a.segments[0] <= 0xfdff
    ensures r <==> UNIQUE_LOCAL.Contains(ToU128(a))
  {
    (a.segments[0] & 0xfe00) == 0xfc00
  }

  /** `is_documentation`: 2001:db8::/32, the first two segments. */
  function IsDocumentation(a: Ipv6Addr): (r: bool)
    ensures r <==> DOCUMENTATION.Contains(ToU128(a))
  {
    a.segments[0] == 0x2001 && a.segments[1] == 0xdb8
  }

  /** `is_unicast_global`: not multicast, loopback, link-local, unique-local,
      unspecified or documentation. On the first segment this leaves
      everything below fc00, fe00-fe7f and fec0-feff. */
  function IsUnicastGlobal(a: Ipv6Addr): (r: bool)
    ensures r <==>
              (a.segments[0] < 0xfc00
               || 0xfe00 <= a.segments[0] < 0xfe80
               || 0xfec0 <= a.segments[0] < 0xff00)
              && !(a.segments[0] == 0x2001 && a.segments[1] == 0xdb8)
              && ToU128(a) > 1
  {
    !IsMulticast(a)
    && !IsLoopback6(a)
    && !IsUnicastLinkLocal(a)
    && !IsUniqueLocal(a)
    && !IsUnspecified(a)
    && !IsDocumentation(a)
  }

  // ---- IpExt for Ipv6Addr ----

  /** `is_global`: a multicast address is global exactly when its scope is
      Global; any other address is global when it is global unicast. */
  function IsGlobal(a: Ipv6Addr): (r: bool)
    ensures IsMulticast(a) ==> (r <==> ScopeField(a) == 14)
    ensures !IsMulticast(a) ==> (r <==> IsUnicastGlobal(a))
  {
    match MulticastScope(a)
    case Some(Global) => true
    case None => IsUnicastGlobal(a)
    case _ => false
  }

  // ---- Scope encoding ----

  /** Decoding is the inverse of the RFC 4291 encoding: a multicast address
      decodes to scope `s` exactly when its scope field is `s`'s value. */
  lemma MulticastScopeDecodes(a: Ipv6Addr, s: Ipv6MulticastScope)
    ensures MulticastScope(a) == Some(s) <==> IsMulticast(a) && ScopeField(a) == ScopeValue(s)
  {
  }

  /** No two scopes share a value, so the decoding is unambiguous. */
  lemma ScopeValueInjective(s: Ipv6MulticastScope, t: Ipv6MulticastScope)
    ensures ScopeValue(s) == ScopeValue(t) <==> s == t
  {
  }

  /** The scope values the decoder leaves unassigned. Value 3 is not among
      them: it decodes to RealmLocal. */
  lemma UnassignedScopeValues(a: Ipv6Addr)
    requires IsMulticast(a)
    ensures ScopeField(a) in {0, 6, 7, 9, 10, 11, 12, 13, 15} <==> MulticastScope(a) == None
    ensures ScopeField(a) == 3 ==> MulticastScope(a) == Some(RealmLocal)
  {
  }

  // ---- Agreement with the block registry ----

  // The standard library's assumed predicates are the blocks above.

  lemma MulticastIsBlock(a: Ipv6Addr)
    ensures IsMulticast(a) <==> MULTICAST.Contains(ToU128(a))
  {
  }

  lemma LoopbackIsBlock(a: Ipv6Addr)
    ensures IsLoopback6(a) <==> LOOPBACK.Contains(ToU128(a))
  {
  }

  lemma UnspecifiedIsBlock(a: Ipv6Addr)
    ensures IsUnspecified(a) <==> UNSPECIFIED.Contains(ToU128(a))
  {
  }

  /** `is_unicast_global` is exactly: in none of the non-global-unicast blocks. */
  lemma IsUnicastGlobalMatchesRegistry(a: Ipv6Addr)
    ensures IsUnicastGlobal(a) <==> !InAny6(ToU128(a), NON_GLOBAL_UNICAST)
  {
    var v := ToU128(a);
    MulticastIsBlock(a);
    LoopbackIsBlock(a);
    UnspecifiedIsBlock(a);
    InAny6Append(v, [MULTICAST, LOOPBACK, LINK_LOCAL], [UNIQUE_LOCAL, UNSPECIFIED, DOCUMENTATION]);
    InAny6Three(v, MULTICAST, LOOPBACK, LINK_LOCAL);
    InAny6Three(v, UNIQUE_LOCAL, UNSPECIFIED, DOCUMENTATION);
  }

  /** IPv6 `is_global` is exactly: multicast with the Global scope value
      (whatever the flag bits), or in none of the non-global-unicast blocks. */
  lemma IsGlobalMatchesRegistry(a: Ipv6Addr)
    ensures IsGlobal(a) <==>
              (MULTICAST.Contains(ToU128(a)) && ScopeField(a) == ScopeValue(Global))
              || !InAny6(ToU128(a), NON_GLOBAL_UNICAST)
  {
    IsUnicastGlobalMatchesRegistry(a);
    MulticastIsBlock(a);
    LoopbackIsBlock(a);
    UnspecifiedIsBlock(a);
  }

  // ---- Examples ----

  lemma ScopeExamples()
    ensures MulticastScope(Addr6(0xff02, 0, 0, 0, 0, 0, 0, 1)) == Some(LinkLocal)
    ensures MulticastScope(Addr6(0xff0e, 0, 0, 0, 0, 0, 0, 1)) == Some(Global)
    ensures MulticastScope(Addr6(0xff00, 0, 0, 0, 0, 0, 0, 1)) == None
    ensures MulticastScope(Addr6(0x2001, 0xdb8, 0, 0, 0, 0, 0, 1)) == None
  {
  }

  lemma BlockExamples()
    ensures IsUniqueLocal(Addr6(0xfc00, 0, 0, 0, 0, 0, 0, 1))
    ensures IsUniqueLocal(Addr6(0xfd00, 0, 0, 0, 0, 0, 0, 1))
    ensures !IsUniqueLocal(Addr6(0xfe00, 0, 0, 0, 0, 0, 0, 1))
    ensures IsDocumentation(Addr6(0x2001, 0xdb8, 0, 0, 0, 0, 0, 1))
    ensures !IsDocumentation(Addr6(0x2001, 0xdb9, 0, 0, 0, 0, 0, 1))
    ensures IsUnicastLinkLocal(Addr6(0xfe80, 0, 0, 0, 0, 0, 0, 1))
    ensures !IsUnicastLinkLocal(Addr6(0xfec0, 0, 0, 0, 0, 0, 0, 1))
  {
  }

  lemma GlobalExamples()
    ensures IsGlobal(Addr6(0xff0e, 0, 0, 0, 0, 0, 0, 1))
    ensures !IsGlobal(Addr6(0xff02, 0, 0, 0, 0, 0, 0, 1))
    ensures !IsGlobal(Addr6(0xff00, 0, 0, 0, 0, 0, 0, 1))
    ensures !IsGlobal(Addr6(0xfc00, 0, 0, 0, 0, 0, 0, 1))
    ensures IsGlobal(Addr6(0x2606, 0x4700, 0, 0, 0, 0, 0, 1))
    ensures !IsGlobal(Addr6(0, 0, 0, 0, 0, 0, 0, 1))
  {
  }
}
