/**
 The text of IP addresses. Addresses are written as in section 4 of RFC 5952 and read as
 in section 2.2 of RFC 4291, including the dotted tail of section 5 and section 2.2(3).
 */
module IpText {
  import opened Wrappers
  import opened Text

  type Octet = n: nat | n < 0x100
  type Group = n: nat | n < 0x10000
  type Ipv4 = s: seq<Octet> | |s| == 4 witness [0, 0, 0, 0]
  type Ipv6 = s: seq<Group> | |s| == 8 witness [0, 0, 0, 0, 0, 0, 0, 0]

  datatype IpAddr = V4(octets: Ipv4) | V6(segments: Ipv6)

  // ---------------------------------------------------------------------------
  // Writing
  // ---------------------------------------------------------------------------

  function Decimals(a: seq<nat>): seq<string> {
    seq(|a|, i requires 0 <= i < |a| => Numeral(a[i], 10))
  }

  function Hexes(a: seq<Group>): seq<string> {
    seq(|a|, i requires 0 <= i < |a| => Numeral(a[i], 16))
  }

  function ShowV4(a: Ipv4): string {
    Join(Decimals(a), '.')
  }

  /** How many groups from position `i` on are zero. */
  function Zeros(a: seq<Group>, i: nat): (n: nat)
    ensures i <= |a| ==> i + n <= |a|
    decreases |a| - i
  {
    if i < |a| && a[i] == 0 then 1 + Zeros(a, i + 1) else 0
  }

  /** The first of the longest runs of zeros that start at `i` or later. */
  function LongestZeros(a: seq<Group>, i: nat): (r: nat)
    requires i <= |a|
    ensures i <= r <= |a|
    decreases |a| - i
  {
    if i == |a| then i
    else
      var r := LongestZeros(a, i + 1);
      if Zeros(a, i) >= Zeros(a, r) then i else r
  }

  lemma {:induction false} ZerosAreZero(a: seq<Group>, i: nat)
    requires i <= |a|
    ensures forall k :: i <= k < i + Zeros(a, i) ==> a[k] == 0
    ensures i + Zeros(a, i) < |a| ==> a[i + Zeros(a, i)] != 0
    decreases |a| - i
  {
    if i < |a| && a[i] == 0 {
      ZerosAreZero(a, i + 1);
    }
  }

  lemma {:induction false} LongestComesFirst(a: seq<Group>, i: nat, j: nat)
    requires i <= j <= |a|
    ensures Zeros(a, j) <= Zeros(a, LongestZeros(a, i))
    ensures j < LongestZeros(a, i) ==> Zeros(a, j) < Zeros(a, LongestZeros(a, i))
    decreases |a| - i
  {
    if i < |a| {
      LongestComesFirst(a, i + 1, if j == i then j + 1 else j);
    }
  }

  predicate IsMapped(a: Ipv6) {
    a[..6] == [0, 0, 0, 0, 0, 0xffff]
  }

  function MappedV4(a: Ipv6): Ipv4 {
    [a[6] / 256, a[6] % 256, a[7] / 256, a[7] % 256]
  }

  function ShowV6(a: Ipv6): string {
    if IsMapped(a) then "::ffff:" + ShowV4(MappedV4(a))
    else
      var start := LongestZeros(a, 0);
      var len := Zeros(a, start);
      if len > 1
      then Join(Hexes(a[..start]), ':') + "::" + Join(Hexes(a[start + len..]), ':')
      else Join(Hexes(a), ':')
  }

  function Show(ip: IpAddr): string {
    match ip
    case V4(octets) => ShowV4(octets)
    case V6(segments) => ShowV6(segments)
  }

  // ---------------------------------------------------------------------------
  // Reading
  // ---------------------------------------------------------------------------

  function ReadOctet(s: string): (r: Option<nat>)
    ensures r.Some? ==> r.value < 0x100
  {
    if |s| > 3 || (|s| > 1 && s[0] == '0') then None
    else
      match NumeralValue(s, 10)
      case Some(n) => if n < 256 then Some(n) else None
      case None => None
  }

  function OfOctets(high: Octet, low: Octet): Group {
    var h: nat := high;
    h * 256 + low
  }

  function ReadDotted(s: string): (r: Option<seq<Group>>) {
    var parts := Split(s, '.');
    if |parts| != 4 then None
    else
      match (ReadOctet(parts[0]), ReadOctet(parts[1]), ReadOctet(parts[2]), ReadOctet(parts[3]))
      case (Some(a), Some(b), Some(c), Some(d)) => Some([OfOctets(a, b), OfOctets(c, d)])
      case _ => None
  }

  function Power(base: nat, k: nat): nat {
    if k == 0 then 1 else base * Power(base, k - 1)
  }

  lemma {:induction false} ValueIsBelow(s: string, base: nat)
    requires 2 <= base <= 16
    ensures NumeralValue(s, base).Some? ==> NumeralValue(s, base).value < Power(base, |s|)
  {
    if |s| > 1 && NumeralValue(s, base).Some? {
      var front := s[..|s| - 1];
      ValueIsBelow(front, base);
      DigitStaysBelow(NumeralValue(front, base).value, Power(base, |front|), base);
    }
  }

  lemma DigitStaysBelow(v: nat, p: nat, base: nat)
    requires v < p
    ensures v * base + base <= base * p
  {
    assert (v + 1) * base <= p * base;
  }

  function ReadHex(s: string): (r: Option<Group>) {
    if |s| > 4 then None
    else
      ValueIsBelow(s, 16);
      assert Power(16, 4) == 0x10000 && Power(16, 3) == 0x1000 && Power(16, 2) == 0x100;
      NumeralValue(s, 16)
  }

  function ReadHexes(parts: seq<string>): Option<seq<Group>> {
    if parts == [] then Some([])
    else
      match (ReadHex(parts[0]), ReadHexes(parts[1..]))
      case (Some(g), Some(rest)) => Some([g] + rest)
      case _ => None
  }

  /** The last part may be a dotted IPv4 address. */
  function ReadGroups(parts: seq<string>): Option<seq<Group>> {
    if parts == [] then Some([])
    else if |parts| == 1 && ReadDotted(parts[0]).Some? then ReadDotted(parts[0])
    else
      match (ReadHex(parts[0]), ReadGroups(parts[1..]))
      case (Some(g), Some(rest)) => Some([g] + rest)
      case _ => None
  }

  /** Splits at the first `::`. */
  function FindDouble(s: string): Option<(string, string)> {
    if |s| < 2 then None
    else if s[0] == ':' && s[1] == ':' then Some(([], s[2..]))
    else Shifted([s[0]], FindDouble(s[1..]))
  }

  function Shifted(prefix: string, r: Option<(string, string)>): Option<(string, string)> {
    match r
    case None => None
    case Some(p) => Some((prefix + p.0, p.1))
  }

  /** `::` stands for as many zeros as are missing. */
  function Decompress(head: seq<Group>, tail: seq<Group>): Ipv6
    requires |head| + |tail| <= 8
  {
    head + seq(8 - |head| - |tail|, _ => 0) + tail
  }

  function ReadV6(s: string): Option<Ipv6> {
    match FindDouble(s)
    case None =>
      (match ReadGroups(Split(s, ':'))
       case Some(groups) => if |groups| == 8 then Some(groups) else None
       case None => None)
    case Some(p) =>
      var head := if p.0 == [] then Some([]) else ReadHexes(Split(p.0, ':'));
      var tail := if p.1 == [] then Some([]) else ReadGroups(Split(p.1, ':'));
      if head.None? || tail.None? || |head.value| + |tail.value| > 7 then None
      else Some(Decompress(head.value, tail.value))
  }

  // ---------------------------------------------------------------------------
  // What is written is read back
  // ---------------------------------------------------------------------------

  predicate Colonless(parts: seq<string>) {
    forall i :: 0 <= i < |parts| ==> parts[i] != [] && ':' !in parts[i]
  }

  lemma HexesAre(a: seq<Group>, x: char)
    requires !IsDigit(x, 16)
    ensures forall i :: 0 <= i < |a| ==> Hexes(a)[i] != [] && x !in Hexes(a)[i]
  {
    forall i | 0 <= i < |a| ensures Hexes(a)[i] != [] && x !in Hexes(a)[i] {
      NumeralDigits(a[i], 16);
    }
  }

  lemma DecimalsAre(a: seq<nat>, x: char)
    requires !IsDigit(x, 10)
    ensures forall i :: 0 <= i < |a| ==> Decimals(a)[i] != [] && x !in Decimals(a)[i]
  {
    forall i | 0 <= i < |a| ensures Decimals(a)[i] != [] && x !in Decimals(a)[i] {
      NumeralDigits(a[i], 10);
    }
  }

  lemma OctetReadsBack(n: Octet)
    ensures ReadOctet(Numeral(n, 10)) == Some(n)
  {
    OctetIsShort(n);
    NumeralDigits(n, 10);
    NumeralReadsBack(n, 10);
  }

  lemma HexReadsBack(n: Group)
    ensures ReadHex(Numeral(n, 16)) == Some(n)
  {
    HexGroupIsShort(n);
    NumeralReadsBack(n, 16);
  }

  lemma DottedReadsBack(a: Ipv4)
    ensures ReadDotted(ShowV4(a)) == Some([OfOctets(a[0], a[1]), OfOctets(a[2], a[3])])
  {
    DecimalsAre(a, '.');
    SplitJoin(Decimals(a), '.');
    OctetReadsBack(a[0]);
    OctetReadsBack(a[1]);
    OctetReadsBack(a[2]);
    OctetReadsBack(a[3]);
  }

  lemma HexIsNotDotted(n: Group)
    ensures ReadDotted(Numeral(n, 16)).None?
  {
    NumeralDigits(n, 16);
    assert SplitOnce(Numeral(n, 16), '.').None?;
  }

  lemma {:induction false} GroupsReadBack(a: seq<Group>)
    ensures ReadHexes(Hexes(a)) == Some(a) && ReadGroups(Hexes(a)) == Some(a)
  {
    if a != [] {
      HexReadsBack(a[0]);
      HexIsNotDotted(a[0]);
      GroupsReadBack(a[1..]);
      assert Hexes(a)[1..] == Hexes(a[1..]);
      assert [a[0]] + a[1..] == a;
    }
  }

  lemma {:induction false} SkipPart(part: string, rest: string)
    requires ':' !in part
    ensures FindDouble(part + rest) == Shifted(part, FindDouble(rest))
  {
    if part == [] {
      assert part + rest == rest;
      if FindDouble(rest).Some? {
        assert [] + FindDouble(rest).value.0 == FindDouble(rest).value.0;
      }
    } else {
      assert (part + rest)[1..] == part[1..] + rest;
      SkipPart(part[1..], rest);
      ShiftTwice([part[0]], part[1..], FindDouble(rest));
      assert |part + rest| < 2 ==> rest == [];
      assert [part[0]] + part[1..] == part;
    }
  }

  lemma ShiftTwice(a: string, b: string, r: Option<(string, string)>)
    ensures Shifted(a, Shifted(b, r)) == Shifted(a + b, r)
  {
    if r.Some? {
      assert a + (b + r.value.0) == (a + b) + r.value.0;
    }
  }

  /** A single colon before something else is not a double one. */
  lemma SkipColon(rest: string)
    requires rest != [] && rest[0] != ':'
    ensures FindDouble([':'] + rest) == Shifted([':'], FindDouble(rest))
  {
    assert ([':'] + rest)[1..] == rest;
  }

  /** Joined groups hold no `::`, nor do they hide one that follows. */
  lemma {:induction false} SkipGroups(parts: seq<string>, after: string)
    requires Colonless(parts)
    ensures FindDouble(Join(parts, ':') + after) == Shifted(Join(parts, ':'), FindDouble(after))
  {
    if parts == [] {
      SkipPart([], after);
    } else if |parts| == 1 {
      SkipPart(parts[0], after);
    } else {
      var rest := Join(parts[1..], ':');
      assert parts[1] != [] && rest != [] && rest[0] == parts[1][0];
      SkipGroups(parts[1..], after);
      SkipColon(rest + after);
      SkipPart(parts[0], [':'] + (rest + after));
      assert Join(parts, ':') + after == parts[0] + ([':'] + (rest + after));
      ShiftTwice([':'], rest, FindDouble(after));
      ShiftTwice(parts[0], [':'] + rest, FindDouble(after));
      assert parts[0] + ([':'] + rest) == Join(parts, ':');
    }
  }

  lemma FullFormReadsBack(a: Ipv6)
    ensures ReadV6(Join(Hexes(a), ':')) == Some(a)
  {
    var parts := Hexes(a);
    HexesAre(a, ':');
    SkipGroups(parts, []);
    assert Join(parts, ':') + [] == Join(parts, ':');
    SplitJoin(parts, ':');
    GroupsReadBack(a);
  }

  lemma HalfReadsBack(a: seq<Group>)
    ensures var s := Join(Hexes(a), ':');
      && (s == [] <==> a == [])
      && (a != [] ==> ReadHexes(Split(s, ':')) == Some(a) && ReadGroups(Split(s, ':')) == Some(a))
  {
    if a != [] {
      HexesAre(a, ':');
      SplitJoin(Hexes(a), ':');
      GroupsReadBack(a);
    }
  }

  lemma CompressedReadsBack(a: Ipv6, start: nat, len: nat)
    requires start + len <= 8 && len > 0 && forall k :: start <= k < start + len ==> a[k] == 0
    ensures ReadV6(Join(Hexes(a[..start]), ':') + "::" + Join(Hexes(a[start + len..]), ':')) == Some(a)
  {
    var head, tail := Join(Hexes(a[..start]), ':'), Join(Hexes(a[start + len..]), ':');
    HexesAre(a[..start], ':');
    FindsDouble(Hexes(a[..start]), tail);
    HalfReadsBack(a[..start]);
    HalfReadsBack(a[start + len..]);
    HalvesRead(head + "::" + tail, head, tail, a[..start], a[start + len..]);
    Decompressed(a, start, len);
  }

  /** What an address with `::` between `h` and `t` is read as. */
  lemma HalvesRead(s: string, h: string, t: string, head: seq<Group>, tail: seq<Group>)
    requires FindDouble(s) == Some((h, t)) && |head| + |tail| <= 7
    requires if h == [] then head == [] else ReadHexes(Split(h, ':')) == Some(head)
    requires if t == [] then tail == [] else ReadGroups(Split(t, ':')) == Some(tail)
    ensures ReadV6(s) == Some(Decompress(head, tail))
  {
  }

  /**
   Zeros are compressed exactly where two or more of them stand in a row, and then all of the
   first longest run: what is before the `::` are the groups before that run, what is behind it
   the groups behind.
   */
  lemma WhatIsCompressed(a: Ipv6)
    requires !IsMapped(a)
    ensures FindDouble(ShowV6(a)).Some? <==> exists i :: 0 <= i < 7 && a[i] == 0 && a[i + 1] == 0
    ensures FindDouble(ShowV6(a)).Some? ==>
      exists start: nat, end: nat :: start < end <= 8 && IsFirstLongestRun(a, start, end)
        && FindDouble(ShowV6(a)) == Some((Join(Hexes(a[..start]), ':'), Join(Hexes(a[end..]), ':')))
  {
    var start := LongestZeros(a, 0);
    var len := Zeros(a, start);
    ZerosAreZero(a, start);
    if len > 1 {
      HexesAre(a[..start], ':');
      FindsDouble(Hexes(a[..start]), Join(Hexes(a[start + len..]), ':'));
      LongestIsFirst(a);
      assert a[start] == 0 && a[start + 1] == 0;
    } else {
      HexesAre(a, ':');
      SkipGroups(Hexes(a), []);
      assert Join(Hexes(a), ':') + [] == Join(Hexes(a), ':');
      NoRunIsLonger(a);
    }
  }

  lemma NoRunIsLonger(a: Ipv6)
    ensures (exists i :: 0 <= i < 7 && a[i] == 0 && a[i + 1] == 0) ==> Zeros(a, LongestZeros(a, 0)) > 1
  {
    if i :| 0 <= i < 7 && a[i] == 0 && a[i + 1] == 0 {
      LongestComesFirst(a, 0, i);
      assert Zeros(a, i) == 1 + Zeros(a, i + 1);
    }
  }

  /** The groups from `start` to `end` are zero; no longer run exists, and none as long before it. */
  ghost predicate IsFirstLongestRun(a: Ipv6, start: nat, end: nat)
    requires start < end <= 8
  {
    && (forall k :: start <= k < end ==> a[k] == 0)
    && (forall i, j :: 0 <= i <= j <= 8 && AllZero(a, i, j) ==> j - i <= end - start && (i < start ==> j - i < end - start))
  }

  predicate AllZero(a: Ipv6, i: nat, j: nat)
    requires i <= j <= 8
  {
    forall k :: i <= k < j ==> a[k] == 0
  }

  lemma {:induction false} RunIsCounted(a: Ipv6, i: nat, j: nat)
    requires i <= j <= 8 && AllZero(a, i, j)
    ensures j - i <= Zeros(a, i)
    decreases j - i
  {
    if i < j {
      RunIsCounted(a, i + 1, j);
    }
  }

  lemma LongestIsFirst(a: Ipv6)
    requires Zeros(a, LongestZeros(a, 0)) > 0
    ensures var start := LongestZeros(a, 0); IsFirstLongestRun(a, start, start + Zeros(a, start))
  {
    var start := LongestZeros(a, 0);
    ZerosAreZero(a, start);
    forall i: nat, j: nat | i <= j <= 8 && AllZero(a, i, j)
      ensures j - i <= Zeros(a, start) && (i < start ==> j - i < Zeros(a, start))
    {
      RunIsCounted(a, i, j);
      LongestComesFirst(a, 0, i);
    }
  }

  lemma Decompressed(a: Ipv6, start: nat, len: nat)
    requires start + len <= 8 && forall k :: start <= k < start + len ==> a[k] == 0
    ensures Decompress(a[..start], a[start + len..]) == a
  {
  }

  lemma FindsDouble(parts: seq<string>, tail: string)
    requires Colonless(parts)
    ensures FindDouble(Join(parts, ':') + "::" + tail) == Some((Join(parts, ':'), tail))
  {
    SkipGroups(parts, "::" + tail);
    var head := Join(parts, ':');
    assert head + "::" + tail == head + ("::" + tail) && ("::" + tail)[2..] == tail;
    assert head + [] == head;
  }

  lemma MappedReadsBack(a: Ipv6)
    requires IsMapped(a)
    ensures ReadV6(ShowV6(a)) == Some(a)
  {
    var v4 := ShowV4(MappedV4(a));
    var tail := "ffff:" + v4;
    FindsDouble([], tail);
    assert [] + "::" + tail == ShowV6(a);
    MappedTail(a);
    HalvesRead(ShowV6(a), [], tail, [], [0xffff, a[6], a[7]]);
    MappedGroups(a);
  }

  lemma MappedGroups(a: Ipv6)
    requires IsMapped(a)
    ensures Decompress([], [0xffff, a[6], a[7]]) == a
  {
    assert a == a[..6] + [a[6], a[7]];
    assert forall k :: 0 <= k < 6 ==> a[k] == a[..6][k];
  }

  lemma MappedTail(a: Ipv6)
    ensures ReadGroups(Split("ffff:" + ShowV4(MappedV4(a)), ':')) == Some([0xffff, a[6], a[7]])
  {
    var v4 := ShowV4(MappedV4(a));
    DecimalsAre(MappedV4(a), ':');
    JoinedFrom(Decimals(MappedV4(a)), '.', ':');
    var parts := ["ffff", v4];
    assert parts[1..] == [v4] && "ffff" + [':'] == "ffff:";
    assert Join(parts, ':') == "ffff:" + v4;
    SplitJoin(parts, ':');
    DottedReadsBack(MappedV4(a));
    TwoParts(v4, a[6], a[7]);
  }

  lemma TwoParts(v4: string, x: Group, y: Group)
    requires ReadDotted(v4) == Some([x, y])
    ensures ReadGroups(["ffff", v4]) == Some([0xffff, x, y])
  {
    FourFs();
    assert ["ffff", v4][1..] == [v4];
    assert [0xffff] + [x, y] == [0xffff, x, y];
  }

  lemma FourFs()
    ensures ReadHex("ffff") == Some(0xffff)
  {
    assert "ffff"[..3] == "fff" && "fff"[..2] == "ff" && "ff"[..1] == "f";
    assert NumeralValue("ff", 16) == Some(0xff);
    assert NumeralValue("fff", 16) == Some(0xfff);
  }

  /** Every IPv6 address is read back from its text. */
  lemma V6ReadsBack(a: Ipv6)
    ensures ReadV6(ShowV6(a)) == Some(a)
  {
    if IsMapped(a) {
      MappedReadsBack(a);
    } else {
      var start := LongestZeros(a, 0);
      if Zeros(a, start) > 1 {
        ZerosAreZero(a, start);
        CompressedReadsBack(a, start, Zeros(a, start));
      } else {
        FullFormReadsBack(a);
      }
    }
  }

  /** The text of an IPv6 address has a dot exactly if it embeds an IPv4 address. */
  lemma OnlyMappedHasDots(a: Ipv6)
    ensures '.' in ShowV6(a) <==> IsMapped(a)
  {
    if IsMapped(a) {
      JoinHasSeparator(Decimals(MappedV4(a)), '.');
    } else {
      UnmappedLacksDots(a);
    }
  }

  lemma UnmappedLacksDots(a: Ipv6)
    requires !IsMapped(a)
    ensures '.' !in ShowV6(a)
  {
    var start := LongestZeros(a, 0);
    var len := Zeros(a, start);
    if len > 1 {
      LacksDots(a[..start]);
      LacksDots(a[start + len..]);
      assert '.' !in "::";
    } else {
      LacksDots(a);
    }
  }

  lemma LacksDots(a: seq<Group>)
    ensures '.' !in Join(Hexes(a), ':')
  {
    HexesAre(a, '.');
    JoinedFrom(Hexes(a), ':', '.');
  }

  /** An IPv4 address is no IPv6 address. */
  lemma V4IsNotV6(a: Ipv4)
    ensures ReadV6(ShowV4(a)).None?
  {
    var s := ShowV4(a);
    DecimalsAre(a, ':');
    JoinedFrom(Decimals(a), '.', ':');
    SkipPart(s, []);
    assert s + [] == s;
    assert SplitOnce(s, ':').None?;
    DottedReadsBack(a);
  }
}
