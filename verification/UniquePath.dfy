/** The search for a free file name (`unique_path` in `cli/src/util.rs`). */
module UniquePath {
  import opened Wrappers
  import opened Text

  /** The last component of the sender's file name, if it has one. */
  function WantedName(component: Option<string>): string {
    match component
    case Some(name) => name
    case None => "unnamed"
  }

  /** The part before the extension, and the extension with its dot; a leading dot starts no extension. */
  function StemAndExtension(name: string): (r: (string, string))
    ensures r.0 + r.1 == name
  {
    match RSplitOnce(name, '.')
    case Some(p) => if p.0 != [] then (p.0, "." + p.1) else (name, "")
    case None => (name, "")
  }

  function Numbered(name: string, i: nat): string {
    var parts := StemAndExtension(name);
    parts.0 + " (" + Numeral(i, 10) + ")" + parts.1
  }

  /** A name with an extension is cut at its last dot; one whose only dot leads it, or without dots, is all stem. */
  lemma WhatIsTheExtension(stem: string, extension: string)
    requires stem != [] && '.' !in extension
    ensures StemAndExtension(stem + "." + extension) == (stem, "." + extension)
    ensures '.' !in stem[1..] ==> StemAndExtension(stem) == (stem, "")
  {
    assert "." == ['.'];
    RSplitOnceAt(stem, '.', extension);
    if '.' !in stem[1..] && '.' in stem {
      assert stem[0] == '.';
      assert stem == [] + ['.'] + stem[1..];
      RSplitOnceAt([], '.', stem[1..]);
    }
  }

  /** The decimal notation of `i`: it reads back as `i`, in digits without a leading zero. */
  predicate IsDecimal(text: string, i: nat) {
    && NumeralValue(text, 10) == Some(i)
    && (forall k :: 0 <= k < |text| ==> '0' <= text[k] <= '9')
    && (i > 0 ==> text[0] != '0')
  }

  /** The number stands in parentheses between the stem and the extension. */
  lemma NumberStandsBeforeTheExtension(stem: string, extension: string, i: nat) returns (text: string)
    requires stem != [] && '.' !in extension
    ensures IsDecimal(text, i)
    ensures Numbered(stem + "." + extension, i) == stem + " (" + text + ")" + "." + extension
    ensures '.' !in stem[1..] ==> Numbered(stem, i) == stem + " (" + text + ")"
  {
    text := Numeral(i, 10);
    NumeralReadsBack(i, 10);
    NumeralDigits(i, 10);
    assert forall k :: 0 <= k < |text| ==> IsDigit(text[k], 10);
    WhatIsTheExtension(stem, extension);
    var head := stem + " (" + text + ")";
    assert head + "." + extension == head + ("." + extension);
    assert head + "" == head;
  }

  /** Different numbers give different names. */
  lemma NumberedDiffer(name: string, i: nat, j: nat)
    requires Numbered(name, i) == Numbered(name, j)
    ensures i == j
  {
    var parts := StemAndExtension(name);
    var a, b := Numeral(i, 10), Numeral(j, 10);
    assert |Numbered(name, i)| == |Numbered(name, j)|;
    var from := |parts.0| + 2;
    assert Numbered(name, i)[from..from + |a|] == a;
    assert Numbered(name, j)[from..from + |b|] == b;
    NumeralsDiffer(i, j, 10);
  }

  /** The names probed after `i` numbers. */
  function Probed(name: string, i: nat): set<string> {
    set k | 1 <= k <= i :: Numbered(name, k)
  }

  lemma {:induction false} ProbesAreMany(name: string, i: nat)
    ensures |Probed(name, i)| == i
  {
    if i == 0 {
      assert Probed(name, 0) == {};
    } else {
      ProbesAreMany(name, i - 1);
      assert Probed(name, i) == Probed(name, i - 1) + {Numbered(name, i)};
      assert Numbered(name, i) !in Probed(name, i - 1) by {
        if Numbered(name, i) in Probed(name, i - 1) {
          var k :| 1 <= k <= i - 1 && Numbered(name, k) == Numbered(name, i);
          NumberedDiffer(name, k, i);
        }
      }
    }
  }

  lemma SubsetsAreSmaller<T>(a: set<T>, b: set<T>)
    requires a <= b
    ensures |a| <= |b|
  {
    assert b == a + (b - a);
  }

  /** There are never more taken numbers in a row than names in the directory. */
  lemma TakenNumbersAreFew(names: set<string>, name: string, i: nat)
    requires name in names && forall k :: 1 <= k <= i ==> Numbered(name, k) in names
    ensures i < |names|
  {
    ProbesAreMany(name, i);
    assert name !in Probed(name, i) by {
      forall k | 1 <= k <= i ensures Numbered(name, k) != name {
        NumberedIsLonger(name, k);
      }
    }
    assert Probed(name, i) <= names - {name};
    SubsetsAreSmaller(Probed(name, i), names - {name});
  }

  lemma NumberedIsLonger(name: string, i: nat)
    ensures |Numbered(name, i)| > |name|
  {
    var parts := StemAndExtension(name);
    assert |parts.0 + parts.1| == |name|;
  }

  /**
   A name that is not in the directory: the wanted one, else the one with the smallest
   free number, after at most as many numbers as there are names.
   */
  method FreeName(names: set<string>, component: Option<string>) returns (free: string)
    ensures free !in names
    ensures var name := if component.Some? then component.value else "unnamed";
      if name !in names then free == name
      else exists i :: 1 <= i <= |names| && free == Numbered(name, i) && forall k :: 1 <= k < i ==> Numbered(name, k) in names
  {
    var name := WantedName(component);
    if name !in names {
      return name;
    }
    var i := 1;
    TakenNumbersAreFew(names, name, 0);
    while Numbered(name, i) in names
      invariant 1 <= i <= |names|
      invariant forall k :: 1 <= k < i ==> Numbered(name, k) in names
      decreases |names| - i
    {
      TakenNumbersAreFew(names, name, i);
      i := i + 1;
    }
    return Numbered(name, i);
  }

  /** The extension survives numbering. */
  lemma ExtensionIsKept(name: string, i: nat)
    requires '.' in name && StemAndExtension(name).1 != ""
    ensures StemAndExtension(Numbered(name, i)).1 == StemAndExtension(name).1
  {
    var p := RSplitOnce(name, '.').value;
    var stem := p.0 + " (" + Numeral(i, 10) + ")";
    assert Numbered(name, i) == stem + ['.'] + p.1;
    RSplitOnceAt(stem, '.', p.1);
  }

  lemma {:induction false} RSplitOnceAt(a: string, c: char, b: string)
    requires c !in b
    ensures RSplitOnce(a + [c] + b, c) == Some((a, b))
  {
    var s := a + [c] + b;
    if b == [] {
      assert s[..|s| - 1] == a;
    } else {
      var front := b[..|b| - 1];
      assert s[..|s| - 1] == a + [c] + front;
      RSplitOnceAt(a, c, front);
      assert front + [b[|b| - 1]] == b;
    }
  }
}
