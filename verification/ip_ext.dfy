/**
  The unified classifier: `is_global` on `IpAddr` forwards to the IPv4 or
  the IPv6 classifier, whichever family the address holds.
*/
module IpExt {
  import opened StdNet
  import opened Blocks
  import Ipv4Ext
  import Ipv6Ext

  /** `is_global` on `IpAddr`. Through the family classifiers it agrees with
      each family's block registry. */
  function IsGlobal(ip: IpAddr): (r: bool)
    ensures ip.V4? ==>
              (r <==> InAny4(ToU32(ip.v4), Ipv4Ext.CARVE_OUTS)
                      || !InAny4(ToU32(ip.v4), Ipv4Ext.NON_GLOBAL))
    ensures ip.V6? ==>
              (r <==> (Ipv6Ext.MULTICAST.Contains(ToU128(ip.v6))
                       && Ipv6Ext.ScopeField(ip.v6) == Ipv6Ext.ScopeValue(Ipv6Ext.Global))
                      || !InAny6(ToU128(ip.v6), Ipv6Ext.NON_GLOBAL_UNICAST))
  {
    match ip
    case V4(a) =>
      Ipv4Ext.IsGlobalMatchesRegistry(a);
      Ipv4Ext.IsGlobal(a)
    case V6(a) =>
      Ipv6Ext.IsGlobalMatchesRegistry(a);
      Ipv6Ext.IsGlobal(a)
  }

  /** Dispatch adds no logic: the unified answer is the family answer for
      the same bits. */
  lemma DispatchAgrees(a: Ipv4Addr, b: Ipv6Addr)
    ensures IsGlobal(V4(a)) == Ipv4Ext.IsGlobal(a)
    ensures IsGlobal(V6(b)) == Ipv6Ext.IsGlobal(b)
  {
  }

  lemma Examples()
    ensures IsGlobal(V4(Ipv4Ext.Addr4(192, 0, 0, 9)))
    ensures !IsGlobal(V4(Ipv4Ext.Addr4(0, 0, 0, 1)))
    ensures IsGlobal(V6(Ipv6Ext.Addr6(0xff0e, 0, 0, 0, 0, 0, 0, 1)))
    ensures !IsGlobal(V6(Ipv6Ext.Addr6(0xfc00, 0, 0, 0, 0, 0, 0, 1)))
  {
  }
}
