/**
 Scoped IPv6 addresses as peers print them (`packages/core/src/http/server/peer_ip.rs`)
 and as host names carry them (`packages/core/src/http/client/scoped_host.rs`).
 */
module ScopedHost {
  import opened Wrappers
  import opened Text
  import opened IpText

  type U32 = n: nat | n < 0x1_0000_0000

  datatype SocketAddr =
    | SocketV4(octets: Ipv4, port: nat)
    | SocketV6(segments: Ipv6, port: nat, flowinfo: U32, scope: U32)

  datatype PeerIp = PeerIp(ip: IpAddr, scope: Option<U32>)

  const SUFFIX := ".scoped.localsend.internal"

  /** `PeerIp::from_remote_addr`. */
  function FromRemoteAddr(remote: SocketAddr): PeerIp {
    match remote
    case SocketV4(octets, _) => PeerIp(V4(octets), None)
    case SocketV6(segments, _, _, scope) => PeerIp(V6(segments), if scope != 0 then Some(scope) else None)
  }

  function Display(peer: PeerIp): string {
    match peer.scope
    case Some(scope) => Show(peer.ip) + "%" + Numeral(scope, 10)
    case None => Show(peer.ip)
  }

  /** The address and the scope that a host is read as. */
  function ReadHost(host: string): (r: Option<(Ipv6, U32)>) {
    match SplitOnce(host, '%')
    case None => None
    case Some(p) =>
      match (ReadV6(p.0), ParseU32(p.1))
      case (Some(address), Some(scope)) => Some((address, scope))
      case _ => None
  }

  function HostName(address: Ipv6, scope: U32): string {
    Replace(ShowV6(address), ':', '-') + "s" + Numeral(scope, 10) + SUFFIX
  }

  function Encode(host: string): Option<string> {
    match ReadHost(host)
    case None => None
    case Some(p) => if '.' in ShowV6(p.0) then None else Some(HostName(p.0, p.1))
  }

  function StripSuffix(s: string, suffix: string): (r: Option<string>)
    ensures r.Some? <==> |suffix| <= |s| && s[|s| - |suffix|..] == suffix
    ensures r.Some? ==> s == r.value + suffix
  {
    if |suffix| <= |s| && s[|s| - |suffix|..] == suffix then Some(s[..|s| - |suffix|]) else None
  }

  /** Port and flow are placeholders. */
  function Decode(name: string): Option<SocketAddr> {
    match StripSuffix(name, SUFFIX)
    case None => None
    case Some(encoded) =>
      match SplitOnce(encoded, 's')
      case None => None
      case Some(p) =>
        match (ReadV6(Replace(p.0, '-', ':')), ParseU32(p.1))
        case (Some(address), Some(scope)) => Some(SocketV6(address, 0, 0, scope))
        case _ => None
  }

  // ---------------------------------------------------------------------------
  // Round trips
  // ---------------------------------------------------------------------------

  /** The text of an IPv6 address without dots is of hex digits and colons only. */
  lemma V6Lacks(a: Ipv6, x: char)
    requires !IsDigit(x, 16) && x != ':' && (x == '.' ==> !IsMapped(a))
    ensures x !in ShowV6(a)
  {
    if IsMapped(a) {
      var v4 := MappedV4(a);
      DecimalsAre(v4, x);
      JoinedFrom(Decimals(v4), '.', x);
      assert x !in "::ffff:" by {
        assert "::ffff:" == [':', ':', 'f', 'f', 'f', 'f', ':'];
      }
    } else {
      var start := LongestZeros(a, 0);
      HexesAre(a, x);
      HexesAre(a[..start], x);
      HexesAre(a[start + Zeros(a, start)..], x);
      JoinedFrom(Hexes(a), ':', x);
      JoinedFrom(Hexes(a[..start]), ':', x);
      JoinedFrom(Hexes(a[start + Zeros(a, start)..]), ':', x);
    }
  }

  lemma ReplacedLacks(s: string, a: char, b: char, x: char)
    requires x !in s && x != b
    ensures x !in Replace(s, a, b)
  {
    forall i | 0 <= i < |s| ensures Replace(s, a, b)[i] != x {
      assert s[i] in s;
    }
  }

  /** Decoding gives back what a host name was made of. */
  lemma DecodeHostName(address: Ipv6, scope: U32)
    ensures Decode(HostName(address, scope)) == Some(SocketV6(address, 0, 0, scope))
  {
    var text, number := ShowV6(address), Numeral(scope, 10);
    var encoded := Replace(text, ':', '-') + "s" + number;
    assert HostName(address, scope) == encoded + SUFFIX;
    assert (encoded + SUFFIX)[|encoded|..] == SUFFIX && (encoded + SUFFIX)[..|encoded|] == encoded;
    V6Lacks(address, 's');
    V6Lacks(address, '-');
    ReplacedLacks(text, ':', '-', 's');
    SplitOnceAt(Replace(text, ':', '-'), 's', number);
    ReplaceBack(text, ':', '-');
    V6ReadsBack(address);
    U32ReadsBack(scope);
  }

  /** Whatever host is encoded, decoding gives the address and scope it was read as. */
  lemma DecodeReversesEncode(host: string)
    requires Encode(host).Some?
    ensures ReadHost(host).Some?
    ensures var p := ReadHost(host).value; Decode(Encode(host).value) == Some(SocketV6(p.0, 0, 0, p.1))
  {
    var p := ReadHost(host).value;
    DecodeHostName(p.0, p.1);
  }

  /** Hosts share a name exactly if they are read as the same address and scope. */
  lemma EncodeIsInjective(a: string, b: string)
    ensures Encode(a).Some? && Encode(b).Some? ==> (Encode(a) == Encode(b) <==> ReadHost(a) == ReadHost(b))
  {
    if Encode(a).Some? && Encode(b).Some? {
      DecodeReversesEncode(a);
      DecodeReversesEncode(b);
    }
  }

  /** What a scoped IPv6 peer prints is read back. */
  lemma DisplayReadsBack(address: Ipv6, scope: U32)
    ensures ReadHost(Display(PeerIp(V6(address), Some(scope)))) == Some((address, scope))
  {
    V6Lacks(address, '%');
    assert "%" == ['%'];
    SplitOnceAt(ShowV6(address), '%', Numeral(scope, 10));
    V6ReadsBack(address);
    U32ReadsBack(scope);
  }

  /** A printed peer is encoded exactly if it is IPv6, scoped, and embeds no IPv4 address. */
  lemma WhichPeersAreEncoded(peer: PeerIp)
    ensures Encode(Display(peer)).Some? <==> peer.ip.V6? && peer.scope.Some? && !IsMapped(peer.ip.segments)
  {
    match peer.ip
    case V4(octets) =>
      DecimalsAre(octets, '%');
      JoinedFrom(Decimals(octets), '.', '%');
      if peer.scope.Some? {
        assert "%" == ['%'];
        SplitOnceAt(ShowV4(octets), '%', Numeral(peer.scope.value, 10));
        V4IsNotV6(octets);
      }
    case V6(segments) =>
      V6Lacks(segments, '%');
      if peer.scope.Some? {
        DisplayReadsBack(segments, peer.scope.value);
        OnlyMappedHasDots(segments);
      }
  }

  /**
   The address of a connection survives being printed, encoded and decoded, up to port and
   flow, exactly if it is an IPv6 address with a scope that embeds no IPv4 address; any
   other is not encoded at all.
   */
  lemma PeerRoundTrip(remote: SocketAddr)
    ensures var name := Encode(Display(FromRemoteAddr(remote)));
      && (name.Some? <==> remote.SocketV6? && remote.scope != 0 && !IsMapped(remote.segments))
      && (name.Some? ==> Decode(name.value) == Some(SocketV6(remote.segments, 0, 0, remote.scope)))
  {
    WhichPeersAreEncoded(FromRemoteAddr(remote));
    if remote.SocketV6? && remote.scope != 0 && !IsMapped(remote.segments) {
      DisplayReadsBack(remote.segments, remote.scope);
      DecodeHostName(remote.segments, remote.scope);
    }
  }

  /** A peer prints its address, and a scope exactly if it has one: an IPv6 peer with a scope other than zero. */
  lemma WhatPeersPrint(remote: SocketAddr)
    ensures var text := Display(FromRemoteAddr(remote));
      && ('%' in text <==> remote.SocketV6? && remote.scope != 0)
      && text == match remote
                 case SocketV4(octets, _) => ShowV4(octets)
                 case SocketV6(segments, _, _, scope) => ShowV6(segments) + if scope == 0 then "" else "%" + Numeral(scope, 10)
  {
    match remote
    case SocketV4(octets, _) =>
      DecimalsAre(octets, '%');
      JoinedFrom(Decimals(octets), '.', '%');
    case SocketV6(segments, _, _, scope) =>
      V6Lacks(segments, '%');
      var text := ShowV6(segments);
      assert text + "" == text;
      if scope != 0 {
        assert (text + "%" + Numeral(scope, 10))[|text|] == '%';
        assert text + "%" + Numeral(scope, 10) == text + ("%" + Numeral(scope, 10));
      }
  }

  /** Peers print alike exactly if they have the same address and scope; ports and flows do not show. */
  lemma PeersPrintApart(a: SocketAddr, b: SocketAddr)
    ensures Display(FromRemoteAddr(a)) == Display(FromRemoteAddr(b)) <==> FromRemoteAddr(a) == FromRemoteAddr(b)
  {
    if Display(FromRemoteAddr(a)) == Display(FromRemoteAddr(b)) {
      WhatPeersPrint(a);
      WhatPeersPrint(b);
      match (a, b)
      case (SocketV4(x, _), SocketV4(y, _)) =>
        DottedReadsBack(x);
        DottedReadsBack(y);
        SameOctets(x, y);
      case (SocketV6(x, _, _, m), SocketV6(y, _, _, n)) =>
        if m != 0 {
          DisplayReadsBack(x, m);
          DisplayReadsBack(y, n);
        } else {
          assert Display(FromRemoteAddr(a)) == ShowV6(x) && Display(FromRemoteAddr(b)) == ShowV6(y);
          V6ReadsBack(x);
          V6ReadsBack(y);
        }
      case (SocketV4(x, _), SocketV6(y, _, _, n)) => V4ShowsApart(x, y);
      case (SocketV6(x, _, _, m), SocketV4(y, _)) => V4ShowsApart(y, x);
    }
  }

  lemma SameOctets(a: Ipv4, b: Ipv4)
    requires [OfOctets(a[0], a[1]), OfOctets(a[2], a[3])] == [OfOctets(b[0], b[1]), OfOctets(b[2], b[3])]
    ensures a == b
  {
    var x, y := [OfOctets(a[0], a[1]), OfOctets(a[2], a[3])], [OfOctets(b[0], b[1]), OfOctets(b[2], b[3])];
    assert x[0] == y[0] && x[1] == y[1];
  }

  lemma V4ShowsApart(a: Ipv4, b: Ipv6)
    ensures ShowV4(a) != ShowV6(b)
  {
    V4IsNotV6(a);
    V6ReadsBack(b);
  }

  // ---------------------------------------------------------------------------
  // Names that were not encoded
  // ---------------------------------------------------------------------------

  ghost predicate IsEncoded(name: string) {
    exists host :: Encode(host) == Some(name)
  }

  /**
   A decodable name was encoded exactly if it spells its address and scope the one way
   `Encode` does, without dots.
   */
  lemma WhichNamesAreEncoded(name: string)
    ensures IsEncoded(name) <==>
      && Decode(name).Some? && Decode(name).value.SocketV6?
      && name == HostName(Decode(name).value.segments, Decode(name).value.scope)
      && !IsMapped(Decode(name).value.segments)
  {
    if IsEncoded(name) {
      var host :| Encode(host) == Some(name);
      DecodeReversesEncode(host);
      OnlyMappedHasDots(ReadHost(host).value.0);
    }
    if Decode(name).Some? && Decode(name).value.SocketV6? {
      var address, scope := Decode(name).value.segments, Decode(name).value.scope;
      if name == HostName(address, scope) && !IsMapped(address) {
        DisplayReadsBack(address, scope);
        OnlyMappedHasDots(address);
        assert Encode(Display(PeerIp(V6(address), Some(scope)))) == Some(name);
      }
    }
  }

  /** Not every decodable name was encoded: a sign before the scope is accepted. */
  lemma DecodeAcceptsMore(address: Ipv6, scope: U32)
    ensures var name := Replace(ShowV6(address), ':', '-') + "s+" + Numeral(scope, 10) + ".scoped.localsend.internal";
      Decode(name) == Some(SocketV6(address, 0, 0, scope)) && !IsEncoded(name)
  {
    var text, number := ShowV6(address), Numeral(scope, 10);
    var encoded := Replace(text, ':', '-') + "s+" + number;
    var name := encoded + SUFFIX;
    assert name[|encoded|..] == SUFFIX && name[..|encoded|] == encoded;
    V6Lacks(address, 's');
    V6Lacks(address, '-');
    ReplacedLacks(text, ':', '-', 's');
    assert "s+" + number == "s" + ("+" + number);
    assert encoded == Replace(text, ':', '-') + ['s'] + ("+" + number);
    SplitOnceAt(Replace(text, ':', '-'), 's', "+" + number);
    ReplaceBack(text, ':', '-');
    V6ReadsBack(address);
    NumeralReadsBack(scope, 10);
    assert ("+" + number)[1..] == number;
    WhichNamesAreEncoded(name);
    assert |name| == |HostName(address, scope)| + 1;
  }
}
