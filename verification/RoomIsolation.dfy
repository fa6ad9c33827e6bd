/**
 The group of an address (`server/src/util/ip.rs`), and what grouping means for the
 rooms of the signalling server.
 */
module RoomIsolation {
  import opened Text
  import opened IpText
  import Signaling
  import SignalingInvariants
  import SignalingRelays

  /** `get_ip_group`: an IPv4 address, or the first half of an IPv6 address. */
  function GetIpGroup(ip: IpAddr): string {
    match ip
    case V4(octets) => ShowV4(octets)
    case V6(segments) => Join(Hexes(segments[..4]), ':')
  }

  /** The same IPv4 address or the same IPv6 /64. */
  predicate SameNetwork(a: IpAddr, b: IpAddr) {
    match (a, b)
    case (V4(x), V4(y)) => x == y
    case (V6(x), V6(y)) => x[..4] == y[..4]
    case _ => false
  }

  lemma {:induction false} DecimalsDiffer(a: seq<nat>, b: seq<nat>)
    requires Decimals(a) == Decimals(b)
    ensures a == b
  {
    assert |a| == |Decimals(a)| == |Decimals(b)| == |b|;
    forall i | 0 <= i < |a| ensures a[i] == b[i] {
      assert Decimals(a)[i] == Decimals(b)[i];
      NumeralsDiffer(a[i], b[i], 10);
    }
  }

  lemma {:induction false} HexesDiffer(a: seq<Group>, b: seq<Group>)
    requires Hexes(a) == Hexes(b)
    ensures a == b
  {
    assert |a| == |Hexes(a)| == |Hexes(b)| == |b|;
    forall i | 0 <= i < |a| ensures a[i] == b[i] {
      assert Hexes(a)[i] == Hexes(b)[i];
      NumeralsDiffer(a[i], b[i], 16);
    }
  }

  /** The text of a group parts it from every other group, whatever the family. */
  lemma GroupsAreNetworks(a: IpAddr, b: IpAddr)
    ensures GetIpGroup(a) == GetIpGroup(b) <==> SameNetwork(a, b)
  {
    if GetIpGroup(a) == GetIpGroup(b) {
      match (a, b)
      case (V4(x), V4(y)) =>
        DecimalsAre(x, '.');
        DecimalsAre(y, '.');
        SplitJoin(Decimals(x), '.');
        SplitJoin(Decimals(y), '.');
        DecimalsDiffer(x, y);
      case (V6(x), V6(y)) =>
        HexesAre(x[..4], ':');
        HexesAre(y[..4], ':');
        SplitJoin(Hexes(x[..4]), ':');
        SplitJoin(Hexes(y[..4]), ':');
        HexesDiffer(x[..4], y[..4]);
      case (V4(x), V6(y)) => FamiliesDiffer(x, y);
      case (V6(x), V4(y)) => FamiliesDiffer(y, x);
    }
  }

  lemma FamiliesDiffer(x: Ipv4, y: Ipv6)
    ensures ShowV4(x) != Join(Hexes(y[..4]), ':')
  {
    DecimalsAre(x, ':');
    JoinedFrom(Decimals(x), '.', ':');
    JoinHasSeparator(Hexes(y[..4]), ':');
  }

  // ---------------------------------------------------------------------------
  // IPv4 hosts that arrive over IPv6
  // ---------------------------------------------------------------------------

  function MappedForm(a: Ipv4): Ipv6 {
    [0, 0, 0, 0, 0, 0xffff, OfOctets(a[0], a[1]), OfOctets(a[2], a[3])]
  }

  /** The address an IPv4 host is seen with: its own, or the mapped one of an IPv6 listener. */
  function Seen(host: Ipv4, mapped: bool): IpAddr {
    if mapped then V6(MappedForm(host)) else V4(host)
  }

  /**
   Two IPv4 hosts get the same group if and only if both are seen in mapped form, whoever
   they are, or both with their own address and it is the same.
   */
  lemma HostsShareGroupIff(a: Ipv4, b: Ipv4, mappedA: bool, mappedB: bool)
    ensures IsMapped(MappedForm(a)) && MappedV4(MappedForm(a)) == a
    ensures GetIpGroup(Seen(a, mappedA)) == GetIpGroup(Seen(b, mappedB)) <==>
      (mappedA && mappedB) || (!mappedA && !mappedB && a == b)
  {
    GroupsAreNetworks(Seen(a, mappedA), Seen(b, mappedB));
    assert MappedForm(a)[..4] == [0, 0, 0, 0] && MappedForm(b)[..4] == [0, 0, 0, 0];
    assert MappedForm(a)[..6] == [0, 0, 0, 0, 0, 0xffff];
    OctetsReadBack(a[0], a[1]);
    OctetsReadBack(a[2], a[3]);
  }

  lemma OctetsReadBack(high: Octet, low: Octet)
    ensures OfOctets(high, low) / 256 == high && OfOctets(high, low) % 256 == low
  {
  }

  /** Unrelated hosts in one group, and one host in two. */
  lemma MappedHostsAreMixed()
    ensures GetIpGroup(Seen([1, 2, 3, 4], true)) == GetIpGroup(Seen([5, 6, 7, 8], true))
    ensures GetIpGroup(Seen([1, 2, 3, 4], true)) != GetIpGroup(Seen([1, 2, 3, 4], false))
  {
    HostsShareGroupIff([1, 2, 3, 4], [5, 6, 7, 8], true, true);
    HostsShareGroupIff([1, 2, 3, 4], [1, 2, 3, 4], true, false);
  }

  // ---------------------------------------------------------------------------
  // Rooms
  // ---------------------------------------------------------------------------

  /** Every connection is put into the group of the address it came from. */
  ghost predicate GroupedByAddress(steps: seq<Signaling.Step>, addressOf: Signaling.PeerId -> IpAddr) {
    forall i :: 0 <= i < |steps| && steps[i].Connect? ==> steps[i].group == GetIpGroup(addressOf(steps[i].id))
  }

  lemma ConnectionsKeepTheirGroup(
    limits: Signaling.Limits, steps: seq<Signaling.Step>, addressOf: Signaling.PeerId -> IpAddr, c: Signaling.PeerId)
    requires GroupedByAddress(steps, addressOf) && c in Signaling.Run(limits, steps).conns
    ensures Signaling.Run(limits, steps).conns[c].group == GetIpGroup(addressOf(c))
  {
    SignalingRelays.StaysAsAdmitted(limits, steps, c);
  }

  /**
   Whatever a client receives in any run, an offer or an answer above all, is about a
   client with the same IPv4 address or in the same IPv6 /64.
   */
  lemma RoomsAreIsolated(
    limits: Signaling.Limits, steps: seq<Signaling.Step>, addressOf: Signaling.PeerId -> IpAddr,
    c: Signaling.PeerId, i: nat)
    requires GroupedByAddress(steps, addressOf)
    requires var s := Signaling.Run(limits, steps); c in s.conns && c in s.inbox && i < |s.inbox[c]|
    ensures var s := Signaling.Run(limits, steps); var x := SignalingInvariants.Subject(s.inbox[c][i], c);
      && x in s.conns && SameNetwork(addressOf(c), addressOf(x))
      && (s.inbox[c][i].Hello? ==> forall y :: y in s.inbox[c][i].peers ==> SameNetwork(addressOf(c), addressOf(y)))
  {
    SignalingInvariants.Reachable(limits, steps);
    var s := Signaling.Run(limits, steps);
    var msg := s.inbox[c][i];
    assert SignalingInvariants.MailFits(s.conns, c, msg) && SignalingInvariants.SenderFits(s.conns, c);
    var x := SignalingInvariants.Subject(msg, c);
    SameRoomSameNetwork(limits, steps, addressOf, c, x);
    if msg.Hello? {
      forall y | y in msg.peers ensures SameNetwork(addressOf(c), addressOf(y)) {
        SameRoomSameNetwork(limits, steps, addressOf, c, y);
      }
    }
  }

  lemma SameRoomSameNetwork(
    limits: Signaling.Limits, steps: seq<Signaling.Step>, addressOf: Signaling.PeerId -> IpAddr,
    c: Signaling.PeerId, x: Signaling.PeerId)
    requires GroupedByAddress(steps, addressOf)
    requires SignalingInvariants.SameGroup(Signaling.Run(limits, steps).conns, c, x)
    ensures SameNetwork(addressOf(c), addressOf(x))
  {
    ConnectionsKeepTheirGroup(limits, steps, addressOf, c);
    ConnectionsKeepTheirGroup(limits, steps, addressOf, x);
    GroupsAreNetworks(addressOf(c), addressOf(x));
  }
}
