/** Addresses. The library's IPv6 parser is a parameter: all that is used of it is that an IPv6
    text has a colon and no slash.
 */
module Net {
  import opened Bits
  import opened Text

  datatype IpAddr = V4(address: u32) | V6(host: nat)

  datatype SocketAddr = SocketAddr(ip: IpAddr, port: u16)

  type V6Parser = f: string -> Option<nat> | forall s :: f(s).Some? ==> ':' in s && '/' !in s
    witness (s: string) => None

  /** `IpAddr::from_str`. */
  function ParseIp(v6: V6Parser, s: string): Option<IpAddr> {
    match ParseIpv4(s)
    case Some(a) => Some(V4(a))
    case None =>
      match v6(s)
      case Some(h) => Some(V6(h))
      case None => None
  }

  /** A text with a slash, such as a CIDR block, is no address. */
  lemma SlashIsNoIp(v6: V6Parser, s: string)
    requires '/' in s
    ensures ParseIp(v6, s).None?
  {
    if ParseIpv4(s).Some? {
      ParsedIpv4Chars(s);
    }
    assert v6(s).None?;
  }

  /** A text is read as an IPv4 address exactly if it is its printed form, and else as the IPv6 parser
      reads it. */
  lemma ParseIpExactly(v6: V6Parser, s: string)
    ensures forall a: u32 :: ParseIp(v6, s) == Some(V4(a)) <==> s == ShowIpv4(a)
    ensures forall h: nat :: ParseIp(v6, s) == Some(V6(h)) <==> v6(s) == Some(h)
  {
    forall a: u32
      ensures ParseIpv4(s) == Some(a) <==> s == ShowIpv4(a)
    {
      ParseIpv4Exactly(s, a);
    }
    if ParseIpv4(s).Some? {
      ParsedIpv4Chars(s);
    }
  }
}
