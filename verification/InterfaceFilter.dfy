/** The address filter of the multicast interfaces (`packages/core/src/multicast/interface.rs`). */
module InterfaceFilter {
  import opened Wrappers
  import opened Text
  import opened IpText

  /** `str::strip_prefix`. */
  function StripPrefix(s: string, prefix: string): (r: Option<string>)
    ensures r.Some? <==> prefix <= s
    ensures r.Some? ==> s == prefix + r.value
  {
    if prefix <= s then Some(s[|prefix|..]) else None
  }

  /** The length of the text before the first dot. */
  function DotFree(s: string): (n: nat)
    ensures n <= |s| && '.' !in s[..n]
    ensures n < |s| ==> s[n] == '.'
  {
    match SplitOnce(s, '.')
    case None => assert s[..|s|] == s; |s|
    case Some(p) => assert s[..|p.0|] == p.0; |p.0|
  }

  /** `matches_ip_filter`. */
  predicate Matches(pattern: string, address: string)
    decreases |pattern|
  {
    match SplitOnce(pattern, '*')
    case None => pattern == address
    case Some(p) =>
      match StripPrefix(address, p.0)
      case None => false
      case Some(remainder) =>
        exists len :: 1 <= len <= DotFree(remainder) && Matches(p.1, remainder[len..])
  }

  // ---------------------------------------------------------------------------
  // Replacing every star
  // ---------------------------------------------------------------------------

  predicate DotFreeText(s: string) {
    s != [] && '.' !in s
  }

  function Stars(pattern: string): nat {
    if pattern == [] then 0 else Stars(pattern[1..]) + if pattern[0] == '*' then 1 else 0
  }

  /** The pattern with its stars replaced in turn. */
  function Fill(pattern: string, texts: seq<string>): string
    requires |texts| == Stars(pattern)
  {
    if pattern == [] then []
    else if pattern[0] == '*' then texts[0] + Fill(pattern[1..], texts[1..])
    else [pattern[0]] + Fill(pattern[1..], texts)
  }

  ghost predicate Fills(pattern: string, texts: seq<string>, address: string) {
    && |texts| == Stars(pattern) && (forall i :: 0 <= i < |texts| ==> DotFreeText(texts[i]))
    && Fill(pattern, texts) == address
  }

  ghost predicate Fillable(pattern: string, address: string) {
    exists texts :: Fills(pattern, texts, address)
  }

  /** Up to its first star a pattern stands for itself. */
  lemma {:induction false} StarlessPrefix(prefix: string, rest: string, texts: seq<string>)
    requires '*' !in prefix && |texts| == Stars(rest)
    ensures Stars(prefix + rest) == Stars(rest)
    ensures Fill(prefix + rest, texts) == prefix + Fill(rest, texts)
  {
    if prefix == [] {
      assert prefix + rest == rest;
    } else {
      assert (prefix + rest)[1..] == prefix[1..] + rest;
      StarlessPrefix(prefix[1..], rest, texts);
    }
  }

  lemma {:induction false} StarlessStars(prefix: string, rest: string)
    requires '*' !in prefix
    ensures Stars(prefix + rest) == Stars(rest)
  {
    if prefix == [] {
      assert prefix + rest == rest;
    } else {
      assert (prefix + rest)[1..] == prefix[1..] + rest;
      StarlessStars(prefix[1..], rest);
    }
  }

  lemma Associates(a: string, b: string, c: string)
    ensures a + (b + c) == a + b + c
  {
  }

  /** A pattern with a first star is filled by a text for that star and one for the rest. */
  lemma FillFirst(pattern: string, prefix: string, rest: string, text: string, texts: seq<string>)
    requires pattern == prefix + ['*'] + rest && '*' !in prefix && |texts| == Stars(rest)
    ensures Stars(pattern) == |texts| + 1
    ensures Fill(pattern, [text] + texts) == prefix + text + Fill(rest, texts)
  {
    assert pattern == prefix + (['*'] + rest) && (['*'] + rest)[1..] == rest;
    assert ([text] + texts)[1..] == texts;
    StarlessPrefix(prefix, ['*'] + rest, [text] + texts);
    assert prefix + (text + Fill(rest, texts)) == prefix + text + Fill(rest, texts);
  }

  lemma NoStars(pattern: string)
    requires '*' !in pattern
    ensures Stars(pattern) == 0 && Fill(pattern, []) == pattern
  {
    assert pattern + [] == pattern;
    StarlessPrefix(pattern, [], []);
  }

  lemma {:induction false} MatchFills(pattern: string, address: string) returns (texts: seq<string>)
    requires Matches(pattern, address)
    ensures Fills(pattern, texts, address)
    decreases |pattern|
  {
    match SplitOnce(pattern, '*')
    case None =>
      NoStars(pattern);
      texts := [];
    case Some(p) =>
      var remainder := StripPrefix(address, p.0).value;
      var len :| 1 <= len <= DotFree(remainder) && Matches(p.1, remainder[len..]);
      var rest := MatchFills(p.1, remainder[len..]);
      texts := [remainder[..len]] + rest;
      FillsFirst(pattern, p.0, p.1, remainder, len, rest);
  }

  lemma FillsFirst(pattern: string, prefix: string, rest: string, remainder: string, len: nat, texts: seq<string>)
    requires pattern == prefix + ['*'] + rest && '*' !in prefix && 1 <= len <= DotFree(remainder)
    requires Fills(rest, texts, remainder[len..])
    ensures Fills(pattern, [remainder[..len]] + texts, prefix + remainder)
  {
    FillFirst(pattern, prefix, rest, remainder[..len], texts);
    assert remainder[..DotFree(remainder)][..len] == remainder[..len];
    assert prefix + remainder[..len] + remainder[len..] == prefix + remainder;
  }

  lemma {:induction false} FillMatches(pattern: string, texts: seq<string>, address: string)
    requires Fills(pattern, texts, address)
    ensures Matches(pattern, address)
    decreases |pattern|
  {
    match SplitOnce(pattern, '*')
    case None => NoStars(pattern);
    case Some(p) =>
      assert pattern == p.0 + (['*'] + p.1);
      StarlessStars(p.0, ['*'] + p.1);
      assert (['*'] + p.1)[1..] == p.1;
      var text, rest := texts[0], texts[1..];
      FillFirst(pattern, p.0, p.1, text, rest);
      assert texts == [text] + rest;
      FillMatches(p.1, rest, Fill(p.1, rest));
      Associates(p.0, text, Fill(p.1, rest));
      MatchesFirst(pattern, p.0, p.1, text, Fill(p.1, rest));
  }

  lemma MatchesFirst(pattern: string, prefix: string, rest: string, text: string, more: string)
    requires SplitOnce(pattern, '*') == Some((prefix, rest)) && DotFreeText(text) && Matches(rest, more)
    ensures Matches(pattern, prefix + (text + more))
  {
    var remainder := text + more;
    assert (prefix + remainder)[|prefix|..] == remainder && remainder[|text|..] == more;
    WithinDots(text, more);
  }

  lemma WithinDots(text: string, rest: string)
    requires '.' !in text
    ensures |text| <= DotFree(text + rest)
  {
    assert forall k :: 0 <= k < |text| ==> (text + rest)[k] == text[k] != '.';
  }

  /**
   A pattern matches exactly the addresses it becomes when every star is replaced by some
   non-empty text without dots.
   */
  lemma MatchesIffFilled(pattern: string, address: string)
    ensures Matches(pattern, address) <==> Fillable(pattern, address)
  {
    if Matches(pattern, address) {
      var texts := MatchFills(pattern, address);
    }
    if texts :| Fills(pattern, texts, address) {
      FillMatches(pattern, texts, address);
    }
  }

  // ---------------------------------------------------------------------------
  // Part by part
  // ---------------------------------------------------------------------------

  lemma {:induction false} FillAppend(a: string, b: string, s: seq<string>, t: seq<string>)
    requires |s| == Stars(a) && |t| == Stars(b)
    ensures Stars(a + b) == |s + t| && Fill(a + b, s + t) == Fill(a, s) + Fill(b, t)
  {
    if a == [] {
      assert a + b == b && s + t == t;
    } else {
      assert (a + b)[1..] == a[1..] + b && (a + b)[0] == a[0];
      if a[0] == '*' {
        FillAppend(a[1..], b, s[1..], t);
        assert (s + t)[1..] == s[1..] + t && (s + t)[0] == s[0];
        Associates(s[0], Fill(a[1..], s[1..]), Fill(b, t));
      } else {
        FillAppend(a[1..], b, s, t);
        Associates([a[0]], Fill(a[1..], s), Fill(b, t));
      }
    }
  }

  lemma {:induction false} StarsAppend(a: string, b: string)
    ensures Stars(a + b) == Stars(a) + Stars(b)
  {
    if a == [] {
      assert a + b == b;
    } else {
      assert (a + b)[1..] == a[1..] + b;
      StarsAppend(a[1..], b);
    }
  }

  /** Filling keeps a dot-free pattern dot-free. */
  lemma {:induction false} FilledLacksDots(pattern: string, texts: seq<string>)
    requires |texts| == Stars(pattern) && '.' !in pattern
    requires forall i :: 0 <= i < |texts| ==> DotFreeText(texts[i])
    ensures '.' !in Fill(pattern, texts)
  {
    if pattern != [] {
      FilledLacksDots(pattern[1..], if pattern[0] == '*' then texts[1..] else texts);
    }
  }

  lemma PartsOfFilled(head: string, tail: string, texts: seq<string>, address: string)
    requires '.' !in head && Fills(head + (['.'] + tail), texts, address)
    ensures SplitOnce(address, '.').Some?
    ensures Fillable(head, SplitOnce(address, '.').value.0) && Fillable(tail, SplitOnce(address, '.').value.1)
  {
    StarsAppend(head, ['.'] + tail);
    DottedTail(tail);
    var s, t := texts[..Stars(head)], texts[Stars(head)..];
    assert texts == s + t;
    CutFilled(head, tail, s, t);
  }

  lemma CutFilled(head: string, tail: string, s: seq<string>, t: seq<string>)
    requires '.' !in head && |s| == Stars(head) && |t| == Stars(tail)
    requires forall i :: 0 <= i < |s| ==> DotFreeText(s[i])
    requires forall i :: 0 <= i < |t| ==> DotFreeText(t[i])
    ensures Stars(head + (['.'] + tail)) == |s + t|
    ensures SplitOnce(Fill(head + (['.'] + tail), s + t), '.') == Some((Fill(head, s), Fill(tail, t)))
    ensures Fillable(head, Fill(head, s)) && Fillable(tail, Fill(tail, t))
  {
    DottedTail(tail);
    FillAppend(head, ['.'] + tail, s, t);
    FilledLacksDots(head, s);
    SplitOnceAt(Fill(head, s), '.', Fill(tail, t));
    Associates(Fill(head, s), ['.'], Fill(tail, t));
    assert Fills(head, s, Fill(head, s)) && Fills(tail, t, Fill(tail, t));
  }

  lemma DottedTail(tail: string)
    ensures Stars(['.'] + tail) == Stars(tail)
    ensures forall t :: |t| == Stars(tail) ==> Fill(['.'] + tail, t) == ['.'] + Fill(tail, t)
  {
    assert (['.'] + tail)[1..] == tail;
  }

  lemma FilledFromParts(head: string, tail: string, s: seq<string>, t: seq<string>, a: string, b: string)
    requires Fills(head, s, a) && Fills(tail, t, b)
    ensures Fills(head + (['.'] + tail), s + t, a + ['.'] + b)
  {
    DottedTail(tail);
    FillAppend(head, ['.'] + tail, s, t);
    assert a + (['.'] + b) == a + ['.'] + b;
  }

  /** Pattern and address are cut at their first dots. */
  lemma FillableByParts(head: string, tail: string, address: string)
    requires '.' !in head
    ensures Fillable(head + ['.'] + tail, address) <==>
      && SplitOnce(address, '.').Some?
      && Fillable(head, SplitOnce(address, '.').value.0) && Fillable(tail, SplitOnce(address, '.').value.1)
  {
    assert head + ['.'] + tail == head + (['.'] + tail);
    if texts :| Fills(head + (['.'] + tail), texts, address) {
      PartsOfFilled(head, tail, texts, address);
    }
    var cut := SplitOnce(address, '.');
    if cut.Some? && Fillable(head, cut.value.0) && Fillable(tail, cut.value.1) {
      var s :| Fills(head, s, cut.value.0);
      var t :| Fills(tail, t, cut.value.1);
      FilledFromParts(head, tail, s, t, cut.value.0, cut.value.1);
    }
  }

  /** A dot-free pattern is filled to dot-free text. */
  lemma DotFreeFillable(pattern: string, address: string)
    requires '.' !in pattern && '.' in address
    ensures !Fillable(pattern, address)
  {
    if texts :| Fills(pattern, texts, address) {
      FilledLacksDots(pattern, texts);
    }
  }

  lemma {:induction false} FillableParts(pattern: string, address: string)
    ensures var p, a := Split(pattern, '.'), Split(address, '.');
      Fillable(pattern, address) <==> |p| == |a| && forall i :: 0 <= i < |p| ==> Fillable(p[i], a[i])
    decreases |pattern|
  {
    var p, a := Split(pattern, '.'), Split(address, '.');
    match SplitOnce(pattern, '.')
    case None =>
      assert p[0] == pattern;
      if '.' in address {
        DotFreeFillable(pattern, address);
        assert |a| > 1;
      } else {
        assert a[0] == address;
      }
    case Some(cut) =>
      FillableByParts(cut.0, cut.1, address);
      match SplitOnce(address, '.')
      case None =>
        assert |p| > 1;
      case Some(other) =>
        FillableParts(cut.1, other.1);
        assert p[1..] == Split(cut.1, '.') && a[1..] == Split(other.1, '.');
        assert forall i :: 1 <= i < |p| ==> p[i] == p[1..][i - 1];
        assert forall i :: 1 <= i < |a| ==> a[i] == a[1..][i - 1];
        PartByPart(p, a);
  }

  lemma PartByPart(p: seq<string>, a: seq<string>)
    requires p != [] && a != []
    ensures (|p| == |a| && forall i :: 0 <= i < |p| ==> Fillable(p[i], a[i])) <==>
            (Fillable(p[0], a[0]) && |p[1..]| == |a[1..]| && forall i :: 0 <= i < |p[1..]| ==> Fillable(p[1..][i], a[1..][i]))
  {
    if Fillable(p[0], a[0]) && |p[1..]| == |a[1..]| && forall i :: 0 <= i < |p[1..]| ==> Fillable(p[1..][i], a[1..][i]) {
      forall i | 0 <= i < |p| ensures Fillable(p[i], a[i]) {
        assert i > 0 ==> p[i] == p[1..][i - 1] && a[i] == a[1..][i - 1];
      }
    }
  }

  /** A pattern matches exactly if it has as many dotted parts as the address, each matching its partner. */
  lemma MatchesPartByPart(pattern: string, address: string)
    ensures var p, a := Split(pattern, '.'), Split(address, '.');
      Matches(pattern, address) <==> |p| == |a| && forall i :: 0 <= i < |p| ==> Matches(p[i], a[i])
  {
    var p, a := Split(pattern, '.'), Split(address, '.');
    FillableParts(pattern, address);
    MatchesIffFilled(pattern, address);
    if |p| == |a| {
      forall i | 0 <= i < |p| ensures Matches(p[i], a[i]) <==> Fillable(p[i], a[i]) {
        MatchesIffFilled(p[i], a[i]);
      }
    }
  }

  // ---------------------------------------------------------------------------
  // Filtering interfaces
  // ---------------------------------------------------------------------------

  datatype Filter = Filter(whitelist: Option<seq<string>>, blacklist: Option<seq<string>>)

  predicate AnyAddressMatches(addresses: seq<IpAddr>, patterns: seq<string>) {
    exists address :: address in addresses && exists pattern :: pattern in patterns && Matches(pattern, Show(address))
  }

  predicate IsIgnored(filter: Filter, addresses: seq<IpAddr>) {
    || (filter.whitelist.Some? && !AnyAddressMatches(addresses, filter.whitelist.value))
    || (filter.blacklist.Some? && AnyAddressMatches(addresses, filter.blacklist.value))
  }

  /** A pattern matches an IPv4 address exactly if it has four dotted parts that match the octets. */
  lemma MatchesOctets(pattern: string, a: Ipv4)
    ensures var p := Split(pattern, '.');
      Matches(pattern, Show(V4(a))) <==> |p| == 4 && forall i :: 0 <= i < 4 ==> Matches(p[i], Numeral(a[i], 10))
  {
    MatchesPartByPart(pattern, Show(V4(a)));
    DecimalsAre(a, '.');
    SplitJoin(Decimals(a), '.');
  }

  /** An interface is used exactly if an address fills a whitelisted pattern and none fills a blacklisted one. */
  lemma IgnoredExactly(filter: Filter, addresses: seq<IpAddr>)
    ensures !IsIgnored(filter, addresses) <==>
      && (filter.whitelist.None? || exists a, p :: a in addresses && p in filter.whitelist.value && Fillable(p, Show(a)))
      && (filter.blacklist.None? || forall a, p :: a in addresses && p in filter.blacklist.value ==> !Fillable(p, Show(a)))
  {
    forall a, p ensures Matches(p, Show(a)) <==> Fillable(p, Show(a)) {
      MatchesIffFilled(p, Show(a));
    }
  }
}
