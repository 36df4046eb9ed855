# rust-ipext, modelled in Dafny

`ipext` extends Rust's `std::net` address types with the special-use
classifications the standard library lacks, and uses them to answer one
question: is this address globally reachable?

- For IPv4 (four octets) it adds `is_shared` (100.64.0.0/10, RFC 6598),
  `is_ietf_protocol_assignment` (192.0.0.0/24, section 2.2.2 of RFC 6890),
  `is_reserved` (240.0.0.0/4 without the limited broadcast address) and
  `is_benchmarking` (198.18.0.0/15, RFC 2544). Its `is_global` is a veto list
  over these and five standard-library predicates. Two addresses are
  hard-coded as global before the veto list runs: 192.0.0.9 and 192.0.0.10.
- For IPv6 (eight 16-bit segments) it adds `multicast_scope`, which decodes
  the 4-bit scope field of section 2.7 of RFC 4291 into a seven-value enum.
  It also adds `is_unicast_link_local` (fe80::/10), `is_unique_local`
  (fc00::/7, RFC 4193), `is_documentation` (2001:db8::/32, RFC 3849) and
  `is_unicast_global`. Its `is_global` accepts multicast with the Global
  scope, and otherwise global unicast.
- `is_global` on `IpAddr` forwards to the family of the address it holds.

The Dafny modules follow that structure:

| file | module | contents |
|---|---|---|
| `wrappers.dfy` | `Wrappers` | `Option` |
| `std_net.dfy` | `StdNet` | address types, the big-endian `u32` and `u128` views, the standard-library predicates (assumed) |
| `blocks.dfy` | `Blocks` | CIDR prefixes and block lists: the independent reference |
| `ipv4_ext.dfy` | `Ipv4Ext` | the IPv4 predicates and IPv4 `is_global` |
| `ipv6_ext.dfy` | `Ipv6Ext` | the scope enum and decoder, the IPv6 predicates and IPv6 `is_global` |
| `ip_ext.dfy` | `IpExt` | `is_global` on `IpAddr` |

Octets are `bv8` and segments `bv16`, so each mask test reads as the
source writes it (`(a.octets[1] & 0xc0) == 0x40`). Every predicate's
contract then says what the mask means in two independent ways:

- as a range of octet or segment values;
- as membership in the CIDR block the RFC names (`Blocks.Prefix4` on the
  32-bit big-endian word, `Blocks.Prefix6` on the 128-bit one).

The two `is_global` functions are proved equal to lookups in a registry of
such blocks: a carve-out list and a non-global list for IPv4, and a
non-global-unicast list for IPv6.

## Model

| member | source | states |
|---|---|---|
| StdNet.ToU32 | src/lib.rs:30 | `u32::from`: each octet sits in its big-endian byte of the 32-bit word |
| StdNet.FromU32 | src/lib.rs:30 | the octets of a word convert back to that same word, so the `u32` view misses no value |
| StdNet.ToU32Injective | src/lib.rs:30 | two addresses have the same `u32` value exactly when they are the same address, so the carve-out test compares octets |
| Ipv4Ext.IsShared | src/lib.rs:11-13 | true iff octet 0 is 100 and octet 1 is in 64..127, and iff the address is in 100.64.0.0/10 |
| Ipv4Ext.IsIetfProtocolAssignment | src/lib.rs:15-17 | true iff the address is in 192.0.0.0/24, that is iff its word lies in 0xc0000000..0xc00000ff |
| Ipv4Ext.IsReserved | src/lib.rs:19-21 | true iff octet 0 is at least 240 and the address is not 255.255.255.255, and iff it is in 240.0.0.0/4 but not in 255.255.255.255/32 |
| Ipv4Ext.IsBenchmarking | src/lib.rs:23-25 | true iff octet 0 is 198 and octet 1 is 18 or 19, and iff the address is in 198.18.0.0/15 |
| Ipv4Ext.IsGlobal | src/lib.rs:29-43 | 192.0.0.9 and 192.0.0.10 are global; if the address is shared, IETF, reserved, benchmarking or has first octet 0, it is global exactly when it is one of those two |
| Ipv4Ext.NonGlobalIsVetoList | src/lib.rs:33-42 | the address is in some block of the non-global registry iff one of the ten veto conditions holds |
| Ipv4Ext.CarveOutsAreWords | src/lib.rs:30-32 | the carve-out registry (192.0.0.9/32, 192.0.0.10/32) holds exactly the two words 0xc0000009 and 0xc000000a |
| Ipv4Ext.IsGlobalMatchesRegistry | src/lib.rs:29-43 | IPv4 `is_global` holds iff the address is a carve-out or lies in no non-global block |
| Ipv4Ext.SharedBoundaries | src/lib.rs:11-13 | 100.64.0.0 and 100.127.255.255 are shared; 100.63.255.255 and 100.128.0.0 are not |
| Ipv4Ext.IetfAndBenchmarkingBoundaries | src/lib.rs:15-25 | 192.0.0.5 is an IETF assignment and 192.0.1.5 is not; 198.18.0.1 and 198.19.255.255 are benchmarking, 198.17.255.255 and 198.20.0.0 are not |
| Ipv4Ext.ReservedBoundaries | src/lib.rs:19-21 | broadcast and 239.255.255.255 are not reserved; 240.0.0.1 and 255.255.255.254 are |
| Ipv4Ext.GlobalExamples | src/lib.rs:29-43 | 192.0.0.9, 192.0.0.10 and 8.8.8.8 are global; 192.0.0.8 and 0.0.0.1 are not |
| Ipv6Ext.ScopeValue | src/lib.rs:68-74 | every scope encodes to one of the assigned values 1, 2, 3, 4, 5, 8, 14 |
| Ipv6Ext.MulticastScope | src/lib.rs:65-80 | `None` off multicast; on multicast `Some` iff the scope field is in {1,2,3,4,5,8,14}; a returned scope encodes back to the scope field |
| Ipv6Ext.MulticastScopeDecodes | src/lib.rs:65-80 | the decoder returns scope `s` exactly for multicast addresses whose scope field is the value of `s` |
| Ipv6Ext.UnassignedScopeValues | src/lib.rs:67-75 | on a multicast address, the scope fields 0, 6, 7, 9-13 and 15, and only those, decode to `None`; 3 decodes to RealmLocal |
| Ipv6Ext.ScopeValueInjective | src/lib.rs:68-74 | no two scopes share a value, so the decoding is unambiguous |
| Ipv6Ext.IsUnicastLinkLocal | src/lib.rs:82-84 | true iff segment 0 is in fe80..febf, and iff the address is in fe80::/10 |
| Ipv6Ext.IsUniqueLocal | src/lib.rs:86-88 | true iff segment 0 is in fc00..fdff, and iff the address is in fc00::/7 |
| Ipv6Ext.IsDocumentation | src/lib.rs:99-101 | true iff the address is in 2001:db8::/32 |
| Ipv6Ext.IsUnicastGlobal | src/lib.rs:90-97 | true iff segment 0 is below fc00, in fe00..fe7f or in fec0..feff, the address is not in 2001:db8::/32, and it is neither :: nor ::1 |
| Ipv6Ext.IsUnicastGlobalMatchesRegistry | src/lib.rs:90-97 | `is_unicast_global` holds iff the address lies in none of ff00::/8, ::1/128, fe80::/10, fc00::/7, ::/128, 2001:db8::/32 |
| Ipv6Ext.IsGlobal | src/lib.rs:105-111 | on multicast, global iff the scope field is 14 (an unassigned scope is never global); off multicast, equal to `is_unicast_global` |
| Ipv6Ext.IsGlobalMatchesRegistry | src/lib.rs:104-111 | IPv6 `is_global` holds iff the address is in ff00::/8 with the Global scope value, or in no non-global-unicast block |
| Ipv6Ext.ScopeExamples | src/lib.rs:65-80 | ff02::1 decodes to LinkLocal, ff0e::1 to Global; ff00::1 and 2001:db8::1 decode to `None` |
| Ipv6Ext.BlockExamples | src/lib.rs:82-101 | fc00::1 and fd00::1 are unique local, fe00::1 is not; 2001:db8::1 is documentation, 2001:db9::1 is not; fe80::1 is link-local, fec0::1 is not |
| Ipv6Ext.GlobalExamples | src/lib.rs:104-111 | ff0e::1 and 2606:4700::1 are global; ff02::1, ff00::1, fc00::1 and ::1 are not |
| IpExt.IsGlobal | src/lib.rs:118-125 | on `V4` the answer agrees with the IPv4 registry, on `V6` with the IPv6 registry |
| IpExt.DispatchAgrees | src/lib.rs:118-125 | the unified `is_global` equals the family `is_global` for the same address |
| IpExt.Examples | src/lib.rs:118-125 | V4 192.0.0.9 and V6 ff0e::1 are global; V4 0.0.0.1 and V6 fc00::1 are not |

Some descriptions of this library list scope value 3 among the unassigned
values that decode to `None`. The code maps 3 to RealmLocal, and the model
follows the code (`Ipv6Ext.UnassignedScopeValues`).

## Left out

- The standard library's predicates that the code calls but does not define
  are not part of the model. They are IPv4 `is_private`, `is_loopback`,
  `is_link_local`, `is_broadcast` and `is_documentation`, and IPv6
  `is_multicast`, `is_loopback` and `is_unspecified`. `StdNet` gives each a
  body following the standard library's documentation:
  - the RFC 1918 blocks;
  - 127.0.0.0/8 and 169.254.0.0/16;
  - 255.255.255.255 as a word;
  - the RFC 5737 blocks;
  - ff00::/8, ::1 and ::.
  These bodies are assumptions, and every result that passes through them
  inherits them.
- `octets()`, `segments()` and the trait and impl machinery are not
  modelled. An address is its octets or its segments, and each trait method
  is a function on them.
- Nothing else is left out. The library has no I/O, allocation, errors or
  concurrency.
