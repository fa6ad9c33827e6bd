/** Splitting, joining and numerals, as the string code of the repository uses them. */
module Text {
  import opened Wrappers

  // ---------------------------------------------------------------------------
  // Splitting
  // ---------------------------------------------------------------------------

  /** `str::split_once`: what is before and after the first `c`. */
  function SplitOnce(s: string, c: char): (r: Option<(string, string)>)
    ensures r.None? <==> c !in s
    ensures r.Some? ==> s == r.value.0 + [c] + r.value.1 && c !in r.value.0
  {
    if s == [] then None
    else if s[0] == c then Some(([], s[1..]))
    else
      match SplitOnce(s[1..], c)
      case None => None
      case Some(p) => Some(([s[0]] + p.0, p.1))
  }

  /** `str::rsplit_once`: what is before and after the last `c`. */
  function RSplitOnce(s: string, c: char): (r: Option<(string, string)>)
    ensures r.None? <==> c !in s
    ensures r.Some? ==> s == r.value.0 + [c] + r.value.1 && c !in r.value.1
  {
    if s == [] then None
    else if s[|s| - 1] == c then Some((s[..|s| - 1], []))
    else
      match RSplitOnce(s[..|s| - 1], c)
      case None => None
      case Some(p) => Some((p.0, p.1 + [s[|s| - 1]]))
  }

  lemma {:induction false} SplitOnceAt(a: string, c: char, b: string)
    requires c !in a
    ensures SplitOnce(a + [c] + b, c) == Some((a, b))
  {
    var s := a + [c] + b;
    if a == [] {
      assert s[1..] == b;
    } else {
      assert s[1..] == a[1..] + [c] + b;
      SplitOnceAt(a[1..], c, b);
      assert [a[0]] + a[1..] == a;
    }
  }

  /** `str::split` on a character. */
  function Split(s: string, c: char): (r: seq<string>)
    ensures |r| > 0
    ensures forall i :: 0 <= i < |r| ==> c !in r[i]
    decreases |s|
  {
    match SplitOnce(s, c)
    case None => [s]
    case Some(p) => [p.0] + Split(p.1, c)
  }

  function Join(parts: seq<string>, c: char): string {
    if parts == [] then []
    else if |parts| == 1 then parts[0]
    else parts[0] + [c] + Join(parts[1..], c)
  }

  lemma {:induction false} SplitJoin(parts: seq<string>, c: char)
    requires parts != [] && forall i :: 0 <= i < |parts| ==> c !in parts[i]
    ensures Split(Join(parts, c), c) == parts
  {
    if |parts| > 1 {
      SplitOnceAt(parts[0], c, Join(parts[1..], c));
      SplitJoin(parts[1..], c);
    }
  }

  /** Every character of the joined text comes from a part, or is the separator. */
  lemma {:induction false} JoinedFrom(parts: seq<string>, c: char, x: char)
    requires x != c && forall i :: 0 <= i < |parts| ==> x !in parts[i]
    ensures x !in Join(parts, c)
  {
    if |parts| > 1 {
      JoinedFrom(parts[1..], c, x);
    }
  }

  lemma JoinHasSeparator(parts: seq<string>, c: char)
    requires |parts| > 1
    ensures c in Join(parts, c)
  {
    assert Join(parts, c)[|parts[0]|] == c;
  }

  function Replace(s: string, a: char, b: char): string {
    seq(|s|, i requires 0 <= i < |s| => if s[i] == a then b else s[i])
  }

  lemma ReplaceBack(s: string, a: char, b: char)
    requires b !in s
    ensures Replace(Replace(s, a, b), b, a) == s
  {
    forall i | 0 <= i < |s| ensures Replace(Replace(s, a, b), b, a)[i] == s[i] {
      assert s[i] in s;
    }
  }

  // ---------------------------------------------------------------------------
  // Numerals
  // ---------------------------------------------------------------------------

  function Digit(d: nat): char
    requires d < 16
  {
    if d < 10 then (d + '0' as int) as char else (d - 10 + 'a' as int) as char
  }

  function DigitValue(c: char): Option<nat> {
    if '0' <= c <= '9' then Some(c as int - '0' as int)
    else if 'a' <= c <= 'f' then Some(c as int - 'a' as int + 10)
    else if 'A' <= c <= 'F' then Some(c as int - 'A' as int + 10)
    else None
  }

  /** `{}` for base 10, `{:x}` for base 16. */
  function Numeral(n: nat, base: nat): (s: string)
    requires 2 <= base <= 16
    ensures s != []
  {
    if n < base then [Digit(n)] else Numeral(n / base, base) + [Digit(n % base)]
  }

  /** A decimal or lower-case digit of `base`. */
  predicate IsDigit(c: char, base: nat) {
    var value := DigitValue(c);
    value.Some? && value.value < base && !('A' <= c <= 'F')
  }

  lemma {:induction false} NumeralDigits(n: nat, base: nat)
    requires 2 <= base <= 16
    ensures forall i :: 0 <= i < |Numeral(n, base)| ==> IsDigit(Numeral(n, base)[i], base)
    ensures n > 0 ==> Numeral(n, base)[0] != '0'
  {
    if n < base {
      DigitIsDigit(n, base);
    } else {
      NumeralDigits(n / base, base);
      QuotientIsPositive(n, base);
      DigitIsDigit(n % base, base);
    }
  }

  lemma DigitIsDigit(d: nat, base: nat)
    requires d < base <= 16
    ensures IsDigit(Digit(d), base) && (d > 0 ==> Digit(d) != '0')
  {
  }

  lemma QuotientIsPositive(n: nat, base: nat)
    requires 0 < base <= n
    ensures n / base > 0
  {
  }

  function NumeralValue(s: string, base: nat): Option<nat>
    requires 2 <= base <= 16
  {
    if s == [] then None
    else
      var digit := DigitValue(s[|s| - 1]);
      if digit.None? || digit.value >= base then None
      else if |s| == 1 then digit
      else
        match NumeralValue(s[..|s| - 1], base)
        case None => None
        case Some(n) => Some(n * base + digit.value)
  }

  lemma DigitReadsBack(d: nat)
    requires d < 16
    ensures DigitValue(Digit(d)) == Some(d)
  {
  }

  lemma {:induction false} NumeralReadsBack(n: nat, base: nat)
    requires 2 <= base <= 16
    ensures NumeralValue(Numeral(n, base), base) == Some(n)
  {
    if n < base {
      DigitReadsBack(n);
    } else {
      NumeralReadsBack(n / base, base);
      Unfolded(n, base);
      OneMoreDigit(Numeral(n, base), base, n / base, n % base);
      Recomposed(n, base);
    }
  }

  lemma OneMoreDigit(s: string, base: nat, v: nat, d: nat)
    requires 2 <= base <= 16 && d < base && |s| > 1
    requires NumeralValue(s[..|s| - 1], base) == Some(v) && s[|s| - 1] == Digit(d)
    ensures NumeralValue(s, base) == Some(v * base + d)
  {
    DigitReadsBack(d);
  }

  lemma Unfolded(n: nat, base: nat)
    requires 2 <= base <= 16 && n >= base
    ensures var s := Numeral(n, base);
      |s| > 1 && s[..|s| - 1] == Numeral(n / base, base) && s[|s| - 1] == Digit(n % base)
  {
  }

  lemma Recomposed(n: nat, base: nat)
    requires 0 < base
    ensures n / base * base + n % base == n
  {
  }

  lemma NumeralsDiffer(m: nat, n: nat, base: nat)
    requires 2 <= base <= 16 && Numeral(m, base) == Numeral(n, base)
    ensures m == n
  {
    NumeralReadsBack(m, base);
    NumeralReadsBack(n, base);
  }

  lemma HexGroupIsShort(n: nat)
    requires n < 0x10000
    ensures |Numeral(n, 16)| <= 4
  {
    assert n < 0x1000 ==> |Numeral(n, 16)| <= 3 by {
      ThreeHexDigits(n);
    }
    if n >= 0x1000 {
      ThreeHexDigits(n / 16);
    }
  }

  lemma ThreeHexDigits(n: nat)
    ensures n < 0x1000 ==> |Numeral(n, 16)| <= 3
  {
    if 16 <= n < 0x1000 {
      assert |Numeral(n / 16, 16)| <= 2 by {
        assert n / 16 >= 16 ==> |Numeral(n / 16 / 16, 16)| == 1;
      }
    }
  }

  lemma OctetIsShort(n: nat)
    requires n < 256
    ensures |Numeral(n, 10)| <= 3
  {
    if n >= 10 {
      assert |Numeral(n / 10, 10)| <= 2 by {
        assert n / 10 >= 10 ==> |Numeral(n / 10 / 10, 10)| == 1;
      }
    }
  }

  /** `str::parse::<u32>`: an optional plus sign and decimal digits. */
  function ParseU32(s: string): Option<nat> {
    match NumeralValue(if s != [] && s[0] == '+' then s[1..] else s, 10)
    case Some(n) => if n < 0x1_0000_0000 then Some(n) else None
    case None => None
  }

  lemma U32ReadsBack(n: nat)
    requires n < 0x1_0000_0000
    ensures ParseU32(Numeral(n, 10)) == Some(n)
  {
    NumeralReadsBack(n, 10);
    NumeralDigits(n, 10);
    var s := Numeral(n, 10);
    assert IsDigit(s[0], 10);
  }
}
