/** natural_sort_key: the order in which location labels are listed to the
    operator. A label is cut into alternating runs of non-digits and digits
    (the pieces `re.split(r'(\d+)', s)` returns, the digit runs kept because
    the pattern has a capturing group); digit runs compare as integers and
    the other runs lowercased, so "Location 2" comes before "Location 10". */
module NaturalSort {
  import opened Text
  import opened Ordering

  /** One element of the key list: an int or a lowercased str. */
  datatype Piece = Num(n: nat) | Txt(t: string)

  function Concat(runs: seq<string>): string {
    if runs == [] then [] else runs[0] + Concat(runs[1..])
  }

  predicate NoDigits(s: string) { forall i :: 0 <= i < |s| ==> !IsDigit(s[i]) }

  /** The shape of re.split's result for a pattern that matches maximal
      digit runs: text, digits, text, ..., text; the outer text runs may be
      empty, the inner ones may not (two digit runs would have merged). */
  predicate WellFormedRuns(runs: seq<string>)
    decreases |runs|
  {
    && |runs| >= 1 && NoDigits(runs[0])
    && (|runs| == 1 ||
        (&& |runs| >= 3 && runs[1] != [] && AllDigits(runs[1])
         && (|runs| > 3 ==> runs[2] != [])
         && WellFormedRuns(runs[2..])))
  }

  // ---------------------------------------------------------------- re.split

  /** The length of the longest prefix of s with no digit. */
  function TextPrefix(s: string): (n: nat)
    ensures n <= |s|
  {
    if s == [] || IsDigit(s[0]) then 0 else 1 + TextPrefix(s[1..])
  }

  /** TextPrefix stops at a digit. */
  lemma {:induction false} TextPrefixStops(s: string)
    ensures TextPrefix(s) < |s| ==> IsDigit(s[TextPrefix(s)])
  {
    if s != [] && !IsDigit(s[0]) {
      TextPrefixStops(s[1..]);
    }
  }

  lemma {:induction false} TextPrefixHasNoDigits(s: string)
    ensures NoDigits(s[..TextPrefix(s)])
  {
    if s != [] && !IsDigit(s[0]) {
      TextPrefixHasNoDigits(s[1..]);
      assert s[..TextPrefix(s)] == [s[0]] + s[1..][..TextPrefix(s[1..])];
    }
  }

  /** The length of the longest prefix of s made of digits. */
  function DigitPrefix(s: string): (n: nat)
    ensures n <= |s|
  {
    if s == [] || !IsDigit(s[0]) then 0 else 1 + DigitPrefix(s[1..])
  }

  /** DigitPrefix stops at a non-digit. */
  lemma {:induction false} DigitPrefixStops(s: string)
    ensures DigitPrefix(s) < |s| ==> !IsDigit(s[DigitPrefix(s)])
  {
    if s != [] && IsDigit(s[0]) {
      DigitPrefixStops(s[1..]);
    }
  }

  lemma {:induction false} DigitPrefixIsDigits(s: string)
    ensures AllDigits(s[..DigitPrefix(s)])
  {
    if s != [] && IsDigit(s[0]) {
      DigitPrefixIsDigits(s[1..]);
      assert s[..DigitPrefix(s)] == [s[0]] + s[1..][..DigitPrefix(s[1..])];
    }
  }

  /** re.split(r'(\d+)', s): the text before the first digit run, that
      run, and the split of what follows it. */
  function Runs(s: string): seq<string>
    decreases |s|
  {
    var n := TextPrefix(s);
    if n == |s| then [s]
    else
      var m := DigitPrefix(s[n..]);
      [s[..n], s[n..n + m]] + Runs(s[n + m..])
  }

  /** The first step of Runs, for given prefix lengths. */
  lemma RunsUnfold(t: string, n: nat, m: nat)
    requires n == TextPrefix(t) < |t| && m == DigitPrefix(t[n..])
    ensures Runs(t) == [t[..n], t[n..n + m]] + Runs(t[n + m..])
  {
  }

  /** One step of Runs: a digit-free text, a nonempty digit run, and a
      remainder that does not start with a digit. */
  lemma {:induction false} RunsStep(s: string) returns (n: nat, m: nat)
    requires TextPrefix(s) < |s|
    ensures n == TextPrefix(s) && m == DigitPrefix(s[n..])
    ensures 0 < m && n + m <= |s|
    ensures Runs(s) == [s[..n], s[n..n + m]] + Runs(s[n + m..])
    ensures NoDigits(s[..n]) && AllDigits(s[n..n + m])
    ensures n + m < |s| ==> !IsDigit(s[n + m])
  {
    n := TextPrefix(s);
    m := DigitPrefix(s[n..]);
    RunsUnfold(s, n, m);
    assert 0 < m by {
      TextPrefixStops(s);
      assert s[n..][0] == s[n];
    }
    assert NoDigits(s[..n]) by { TextPrefixHasNoDigits(s); }
    assert AllDigits(s[n..n + m]) by {
      DigitPrefixIsDigits(s[n..]);
      assert s[n..][..m] == s[n..n + m];
    }
    if n + m < |s| {
      assert !IsDigit(s[n + m]) by {
        DigitPrefixStops(s[n..]);
        assert s[n..][m] == s[n + m];
      }
    }
  }

  /** Runs(s) has the shape of re.split's result; with RunsConcat, it is
      the decomposition of s into maximal digit runs and the text between
      them. */
  lemma {:induction false} RunsShape(s: string)
    ensures WellFormedRuns(Runs(s))
    ensures s != [] && !IsDigit(s[0]) ==> Runs(s)[0] != []
    decreases |s|
  {
    if TextPrefix(s) == |s| {
      TextPrefixHasNoDigits(s);
      assert s[..|s|] == s;
    } else {
      var n, m := RunsStep(s);
      if s != [] && !IsDigit(s[0]) {
        assert s[..n][0] == s[0];
      }
      var t := s[n + m..];
      RunsShape(t);
      var rest := Runs(t);
      var runs := Runs(s);
      assert runs[2..] == rest;
      if t == [] { assert rest == [[]]; }
    }
  }

  /** Concatenating the runs gives back s. */
  lemma {:induction false} RunsConcat(s: string)
    ensures Concat(Runs(s)) == s
    decreases |s|
  {
    if TextPrefix(s) == |s| {
      ConcatCons(s, []);
    } else {
      var n, m := RunsStep(s);
      var t := s[n + m..];
      RunsConcat(t);
      Concat2(s[..n], s[n..n + m], Runs(t));
      SplitAt(s, n, n + m);
    }
  }

  lemma SplitAt(s: string, a: nat, b: nat)
    requires a <= b <= |s|
    ensures s == s[..a] + s[a..b] + s[b..]
  {
  }

  lemma Concat2(x: string, y: string, rest: seq<string>)
    ensures Concat([x, y] + rest) == x + y + Concat(rest)
  {
    assert ([x, y] + rest)[1..] == [y] + rest;
    assert ([y] + rest)[1..] == rest;
  }

  lemma ConcatCons(x: string, rest: seq<string>)
    ensures Concat([x] + rest) == x + Concat(rest)
  {
    assert ([x] + rest)[1..] == rest;
  }

  // ---------------------------------------------------------------- the key

  /** int(t) if t.isdigit() else t.lower(). */
  function PieceOf(run: string): Piece {
    if run != [] && AllDigits(run) then Num(DigitsValue(run)) else Txt(Lower(run))
  }

  function KeyOfRuns(runs: seq<string>): seq<Piece> {
    if runs == [] then [] else [PieceOf(runs[0])] + KeyOfRuns(runs[1..])
  }

  function NaturalKey(s: string): seq<Piece> { KeyOfRuns(Runs(s)) }

  /** The key of well-formed runs alternates str, int, str, ..., str: a
      text run never passes isdigit(), a digit run always does. */
  lemma {:induction false} KeyOfRunsAlternates(runs: seq<string>)
    requires WellFormedRuns(runs)
    ensures |KeyOfRuns(runs)| == |runs| && |runs| % 2 == 1
    ensures forall i :: 0 <= i < |runs| ==> (KeyOfRuns(runs)[i].Num? <==> i % 2 == 1)
    decreases |runs|
  {
    if runs[0] != [] { assert !IsDigit(runs[0][0]); }
    if |runs| > 1 {
      KeyOfRunsAlternates(runs[2..]);
      var k := KeyOfRuns(runs);
      assert runs[1..][1..] == runs[2..];
      assert KeyOfRuns(runs[1..]) == [PieceOf(runs[1])] + KeyOfRuns(runs[2..]);
      assert k == [PieceOf(runs[0]), PieceOf(runs[1])] + KeyOfRuns(runs[2..]);
      forall i | 2 <= i < |runs| ensures k[i].Num? <==> i % 2 == 1 {
        assert k[i] == KeyOfRuns(runs[2..])[i - 2];
      }
    }
  }

  lemma NaturalKeyAlternates(s: string)
    ensures |NaturalKey(s)| % 2 == 1
    ensures forall i :: 0 <= i < |NaturalKey(s)| ==> (NaturalKey(s)[i].Num? <==> i % 2 == 1)
  {
    RunsShape(s);
    KeyOfRunsAlternates(Runs(s));
  }

  /** Two natural keys agree in kind position by position, so Python's list
      comparison never has to compare an int with a str and never raises. */
  lemma NaturalKeysComparable(s: string, t: string)
    ensures forall i :: 0 <= i < |NaturalKey(s)| && i < |NaturalKey(t)| ==>
      NaturalKey(s)[i].Num? == NaturalKey(t)[i].Num?
  {
    NaturalKeyAlternates(s);
    NaturalKeyAlternates(t);
  }

  // ---------------------------------------------------------------- the order

  /** `<` on two key elements of the same kind; a mixed pair never arises
      (NaturalKeysComparable), and ordering ints first only makes the
      relation total. */
  function PieceLess(a: Piece, b: Piece): bool {
    match (a, b)
    case (Num(x), Num(y)) => x < y
    case (Txt(x), Txt(y)) => StrLess(x, y)
    case (Num(_), Txt(_)) => true
    case (Txt(_), Num(_)) => false
  }

  lemma PieceLessStrictTotal()
    ensures StrictTotalOrder(PieceLess)
  {
    CharLessStrictTotal();
    forall a: Piece ensures !PieceLess(a, a) {
      if a.Txt? { LexIrreflexive(a.t, CharLess); }
    }
    forall a: Piece, b: Piece, c: Piece | PieceLess(a, b) && PieceLess(b, c) ensures PieceLess(a, c) {
      if a.Txt? && b.Txt? && c.Txt? { LexTransitive(a.t, b.t, c.t, CharLess); }
    }
    forall a: Piece, b: Piece | a != b ensures PieceLess(a, b) || PieceLess(b, a) {
      if a.Txt? && b.Txt? { LexTrichotomy(a.t, b.t, CharLess); }
    }
  }

  /** `sorted(..., key=natural_sort_key)` puts s no later than t. */
  function NaturalLe(s: string, t: string): bool {
    LexLe(PieceLess)(NaturalKey(s), NaturalKey(t))
  }

  /** The natural order is a total preorder, so sorting by it is well
      defined; labels whose keys tie ("bin 1" and "Bin 01") keep the order
      they arrive in. */
  lemma NaturalLeTotalPreorder()
    ensures TotalPreorder(NaturalLe)
  {
    PieceLessStrictTotal();
    LexLeTotalOrder(PieceLess);
    KeyedTotalPreorder(NaturalKey, LexLe(PieceLess));
    assert forall s, t :: NaturalLe(s, t) == LexLe(PieceLess)(NaturalKey(s), NaturalKey(t));
  }

  // ---------------------------------------------------------------- examples

  lemma {:induction false} TextPrefixOfText(t: string, d: string)
    requires NoDigits(t) && d != [] && IsDigit(d[0])
    ensures TextPrefix(t + d) == |t|
  {
    if t != [] {
      assert (t + d)[1..] == t[1..] + d;
      TextPrefixOfText(t[1..], d);
    }
  }

  lemma {:induction false} DigitPrefixOfDigits(d: string)
    requires AllDigits(d)
    ensures DigitPrefix(d) == |d|
  {
    if d != [] { DigitPrefixOfDigits(d[1..]); }
  }

  /** A label made of text followed by a number splits into the text, the
      number and an empty trailing text. */
  lemma {:induction false} RunsOfTextThenNumber(t: string, d: string)
    requires NoDigits(t) && d != [] && AllDigits(d)
    ensures Runs(t + d) == [t, d, []]
  {
    var s := t + d;
    TextPrefixOfText(t, d);
    assert s[|t|..] == d && s[..|t|] == t;
    DigitPrefixOfDigits(d);
    var n, m := RunsStep(s);
    assert s[n..n + m] == d && s[n + m..] == [];
  }

  lemma {:induction false} KeyOfTextThenNumber(t: string, d: string)
    requires NoDigits(t) && d != [] && AllDigits(d)
    ensures NaturalKey(t + d) == [Txt(Lower(t)), Num(DigitsValue(d)), Txt([])]
  {
    RunsOfTextThenNumber(t, d);
    if t != [] { assert !IsDigit(t[0]); }
    assert Lower([]) == [];
    KeyOf3(t, d, []);
  }

  lemma KeyOf3(x: string, y: string, z: string)
    ensures KeyOfRuns([x, y, z]) == [PieceOf(x), PieceOf(y), PieceOf(z)]
  {
    assert [x, y, z][1..] == [y, z] && [y, z][1..] == [z] && [z][1..] == [];
    assert KeyOfRuns([z]) == [PieceOf(z)] + KeyOfRuns([]);
    assert KeyOfRuns([y, z]) == [PieceOf(y)] + KeyOfRuns([z]);
    assert KeyOfRuns([x, y, z]) == [PieceOf(x)] + KeyOfRuns([y, z]);
  }

  /** Two labels that differ only in a trailing number are ordered by the
      value of that number. */
  lemma TextThenSmallerNumber(t: string, d1: string, d2: string)
    requires NoDigits(t)
    requires d1 != [] && AllDigits(d1) && d2 != [] && AllDigits(d2)
    requires DigitsValue(d1) < DigitsValue(d2)
    ensures NaturalLe(t + d1, t + d2) && !NaturalLe(t + d2, t + d1)
  {
    KeyOfTextThenNumber(t, d1);
    KeyOfTextThenNumber(t, d2);
    var k1 := NaturalKey(t + d1);
    var k2 := NaturalKey(t + d2);
    assert k1[1..] == [Num(DigitsValue(d1)), Txt([])] && k2[1..] == [Num(DigitsValue(d2)), Txt([])];
    assert LexLess(k1, k2, PieceLess);
    PieceLessStrictTotal();
    LexAsymmetric(k1, k2, PieceLess);
  }

  /** "Location 2" is listed before "Location 10" (and not tied with it),
      where a plain string comparison would put it after. */
  lemma Location2BeforeLocation10()
    ensures NaturalLe("Location 2", "Location 10")
    ensures !NaturalLe("Location 10", "Location 2")
    ensures StrLess("Location 10", "Location 2")
  {
    var t := "Location ";
    assert NoDigits(t);
    assert t + "2" == "Location 2" && t + "10" == "Location 10";
    assert DigitsValue("10") == 10 by {
      assert "10"[..1] == "1";
    }
    TextThenSmallerNumber(t, "2", "10");
    var a := "Location 10";
    var b := "Location 2";
    assert a[9] == '1' && b[9] == '2';
    assert a[..9] == b[..9];
    StrLessAtFirstDifference(a, b, 9);
  }

  lemma {:induction false} StrLessAtFirstDifference(a: string, b: string, k: nat)
    requires k < |a| && k < |b| && a[..k] == b[..k] && a[k] < b[k]
    ensures StrLess(a, b)
  {
    if k > 0 {
      assert a[0] == a[..k][0] == b[..k][0] == b[0];
      assert a[1..][..k - 1] == a[..k][1..] == b[..k][1..] == b[1..][..k - 1];
      StrLessAtFirstDifference(a[1..], b[1..], k - 1);
    }
  }

  // ---------------------------------------------------------------- letter case

  lemma {:induction false} LowerPrefixes(s: string)
    ensures TextPrefix(Lower(s)) == TextPrefix(s)
    ensures DigitPrefix(Lower(s)) == DigitPrefix(s)
  {
    if s != [] {
      assert Lower(s)[1..] == Lower(s[1..]);
      LowerPrefixes(s[1..]);
    }
  }

  lemma LowerSlice(s: string, a: nat, b: nat)
    requires a <= b <= |s|
    ensures Lower(s)[a..b] == Lower(s[a..b])
  {
  }

  lemma LowerKeepsDigits(r: string)
    ensures AllDigits(Lower(r)) <==> AllDigits(r)
  {
    forall i | 0 <= i < |r| ensures IsDigit(Lower(r)[i]) <==> IsDigit(r[i]) {
    }
  }

  lemma LowerTake(s: string, n: nat)
    requires n <= |s|
    ensures Lower(s)[..n] == Lower(s[..n])
  {
    LowerSlice(s, 0, n);
    assert s[0..n] == s[..n] && Lower(s)[0..n] == Lower(s)[..n];
  }

  lemma LowerDrop(s: string, n: nat)
    requires n <= |s|
    ensures Lower(s)[n..] == Lower(s[n..])
  {
    LowerSlice(s, n, |s|);
    assert s[n..|s|] == s[n..] && Lower(s)[n..|s|] == Lower(s)[n..];
  }

  function MapLower(runs: seq<string>): seq<string> {
    if runs == [] then [] else [Lower(runs[0])] + MapLower(runs[1..])
  }

  lemma MapLower2(x: string, y: string, rest: seq<string>)
    ensures MapLower([x, y] + rest) == [Lower(x), Lower(y)] + MapLower(rest)
  {
    assert ([x, y] + rest)[1..] == [y] + rest;
    assert ([y] + rest)[1..] == rest;
  }

  /** Lowercasing a label lowercases each of its runs. */
  lemma {:induction false} RunsStepOfLower(s: string) returns (n: nat, m: nat)
    requires TextPrefix(s) < |s|
    ensures n + m <= |s|
    ensures Runs(s) == [s[..n], s[n..n + m]] + Runs(s[n + m..])
    ensures Runs(Lower(s)) == [Lower(s[..n]), Lower(s[n..n + m])] + Runs(Lower(s[n + m..]))
  {
    n := TextPrefix(s);
    m := DigitPrefix(s[n..]);
    RunsUnfold(s, n, m);
    LowerRunsUnfold(s, n, m);
  }

  lemma LowerRunsUnfold(s: string, n: nat, m: nat)
    requires n == TextPrefix(s) < |s| && m == DigitPrefix(s[n..])
    ensures Runs(Lower(s)) == [Lower(s[..n]), Lower(s[n..n + m])] + Runs(Lower(s[n + m..]))
  {
    LowerRunsSlices(s, n, m);
    LowerTake(s, n);
    LowerSlice(s, n, n + m);
    LowerDrop(s, n + m);
    RunsOfSameParts(Lower(s), n, m, Lower(s[..n]), Lower(s[n..n + m]), Lower(s[n + m..]));
  }

  lemma RunsOfSameParts(t: string, n: nat, m: nat, a: string, b: string, c: string)
    requires n + m <= |t|
    requires Runs(t) == [t[..n], t[n..n + m]] + Runs(t[n + m..])
    requires t[..n] == a && t[n..n + m] == b && t[n + m..] == c
    ensures Runs(t) == [a, b] + Runs(c)
  {
  }

  lemma LowerRunsSlices(s: string, n: nat, m: nat)
    requires n == TextPrefix(s) < |s| && m == DigitPrefix(s[n..])
    ensures Runs(Lower(s)) == [Lower(s)[..n], Lower(s)[n..n + m]] + Runs(Lower(s)[n + m..])
  {
    LowerPrefixesAt(s, n);
    RunsUnfold(Lower(s), n, m);
  }

  lemma LowerPrefixesAt(s: string, n: nat)
    requires n <= |s|
    ensures TextPrefix(Lower(s)) == TextPrefix(s)
    ensures DigitPrefix(Lower(s)[n..]) == DigitPrefix(s[n..])
  {
    LowerPrefixes(s);
    LowerDrop(s, n);
    LowerPrefixes(s[n..]);
  }

  lemma {:induction false} RunsOfLower(s: string)
    ensures Runs(Lower(s)) == MapLower(Runs(s))
    decreases |s|
  {
    LowerPrefixes(s);
    if TextPrefix(s) == |s| {
      assert MapLower([s]) == [Lower(s)] + MapLower([]);
    } else {
      var n, m := RunsStepOfLower(s);
      RunsOfLower(s[n + m..]);
      MapLower2(s[..n], s[n..n + m], Runs(s[n + m..]));
    }
  }

  lemma {:induction false} KeyOfLowerRuns(runs: seq<string>)
    ensures KeyOfRuns(MapLower(runs)) == KeyOfRuns(runs)
  {
    if runs != [] {
      KeyOfLowerRuns(runs[1..]);
      var r := runs[0];
      assert Lower(Lower(r)) == Lower(r);
      if r != [] && AllDigits(r) {
        assert Lower(r) == r;
      } else {
        LowerKeepsDigits(r);
      }
    }
  }

  /** Text is compared without regard to letter case: a label and its
      lowercase form have the same key. */
  lemma NaturalKeyIgnoresCase(s: string)
    ensures NaturalKey(Lower(s)) == NaturalKey(s)
  {
    RunsOfLower(s);
    KeyOfLowerRuns(Runs(s));
  }
}
