/** String helpers with the meaning of the Python built-ins the scripts call:
    str.upper, str.lower, str.strip, str.split, str.replace, the `in`
    substring test and int() on a string. Letters are case-mapped on ASCII
    only; whitespace is what str.isspace accepts. */
module Text {
  import opened Wrappers

  predicate IsDigit(c: char) { '0' <= c <= '9' }

  /** The characters Python's str.isspace accepts. */
  predicate IsSpace(c: char) {
    || c == ' '
    || '\t' <= c <= '\r'
    || '\U{1C}' <= c <= '\U{1F}'
    || c == '\U{85}' || c == '\U{A0}' || c == '\U{1680}'
    || '\U{2000}' <= c <= '\U{200A}'
    || c == '\U{2028}' || c == '\U{2029}' || c == '\U{202F}' || c == '\U{205F}' || c == '\U{3000}'
  }

  predicate IsNumeralChar(c: char) { IsDigit(c) || c == '_' || c == '+' || c == '-' }

  predicate AllDigits(s: string) { forall i :: 0 <= i < |s| ==> IsDigit(s[i]) }

  // ---------------------------------------------------------------- case

  function UpperChar(c: char): char { if 'a' <= c <= 'z' then (c as int - 32) as char else c }

  function LowerChar(c: char): char { if 'A' <= c <= 'Z' then (c as int + 32) as char else c }

  /** str.upper() */
  function Upper(s: string): string { seq(|s|, i requires 0 <= i < |s| => UpperChar(s[i])) }

  /** str.lower() */
  function Lower(s: string): string { seq(|s|, i requires 0 <= i < |s| => LowerChar(s[i])) }

  predicate IsUpper(s: string) { forall i :: 0 <= i < |s| ==> !('a' <= s[i] <= 'z') }

  /** Upper-casing yields an upper-case string and is idempotent, so a key
      that was normalised once is left alone by a second normalisation. */
  lemma UpperIsUpper(s: string)
    ensures IsUpper(Upper(s))
    ensures IsUpper(s) ==> Upper(s) == s
    ensures Upper(Upper(s)) == Upper(s)
  {
  }

  /** Two strings have the same upper-case form exactly when they agree
      position by position up to the case of ASCII letters. */
  lemma UpperEqualIff(s: string, t: string)
    ensures Upper(s) == Upper(t) <==>
      |s| == |t| && forall i :: 0 <= i < |s| ==> UpperChar(s[i]) == UpperChar(t[i])
  {
    if Upper(s) == Upper(t) {
      forall i | 0 <= i < |s| ensures UpperChar(s[i]) == UpperChar(t[i]) {
        assert Upper(s)[i] == Upper(t)[i];
      }
    }
  }

  // ---------------------------------------------------------------- spans

  /** Length of the longest prefix of s whose characters all satisfy p. */
  function Span(s: string, p: char -> bool): (n: nat)
    ensures n <= |s|
    ensures forall i :: 0 <= i < n ==> p(s[i])
    ensures n < |s| ==> !p(s[n])
  {
    if s == [] || !p(s[0]) then 0 else 1 + Span(s[1..], p)
  }

  /** str.strip(): remove leading and trailing whitespace. */
  function Strip(s: string): (r: string)
    ensures r == [] || (!IsSpace(r[0]) && !IsSpace(r[|r| - 1]))
    ensures |r| <= |s|
    decreases |s|
  {
    if s != [] && IsSpace(s[0]) then Strip(s[1..])
    else if s != [] && IsSpace(s[|s| - 1]) then Strip(s[..|s| - 1])
    else s
  }

  // ---------------------------------------------------------------- search

  predicate StartsWith(s: string, prefix: string) {
    |prefix| <= |s| && s[..|prefix|] == prefix
  }

  /** Python's `needle in hay` on strings. */
  predicate Contains(hay: string, needle: string)
    decreases |hay|
  {
    StartsWith(hay, needle) || (hay != [] && Contains(hay[1..], needle))
  }

  /** needle occurs in hay starting at position i. */
  predicate OccursAt(hay: string, needle: string, i: int) {
    0 <= i <= |hay| - |needle| && hay[i..i + |needle|] == needle
  }

  /** `in` holds exactly when the needle occurs at some position of the hay. */
  lemma ContainsIff(hay: string, needle: string)
    ensures Contains(hay, needle) <==> exists i :: OccursAt(hay, needle, i)
  {
    if Contains(hay, needle) {
      var i := ContainsWitness(hay, needle);
    }
    if exists i :: OccursAt(hay, needle, i) {
      var i :| OccursAt(hay, needle, i);
      ContainsOfOccurs(hay, needle, i);
    }
  }

  lemma {:induction false} ContainsWitness(hay: string, needle: string) returns (i: nat)
    requires Contains(hay, needle)
    ensures OccursAt(hay, needle, i)
    decreases |hay|
  {
    if StartsWith(hay, needle) {
      i := 0;
    } else {
      var j := ContainsWitness(hay[1..], needle);
      assert hay[j + 1..j + 1 + |needle|] == hay[1..][j..j + |needle|];
      i := j + 1;
    }
  }

  lemma {:induction false} ContainsOfOccurs(hay: string, needle: string, i: int)
    requires OccursAt(hay, needle, i)
    ensures Contains(hay, needle)
    decreases i
  {
    if i == 0 {
      assert StartsWith(hay, needle);
    } else {
      assert hay[1..][i - 1..i - 1 + |needle|] == hay[i..i + |needle|];
      ContainsOfOccurs(hay[1..], needle, i - 1);
    }
  }

  // ---------------------------------------------------------------- replace

  /** s.replace(a, b) for single characters a and b. */
  function ReplaceChar(s: string, a: char, b: char): string {
    seq(|s|, i requires 0 <= i < |s| => if s[i] == a then b else s[i])
  }

  // ---------------------------------------------------------------- split

  /** Span stops exactly at the first character that fails the test. */
  lemma SpanAtFirstFailure(x: string, c: char, y: string, p: char -> bool)
    requires forall i :: 0 <= i < |x| ==> p(x[i])
    requires !p(c)
    ensures Span(x + [c] + y, p) == |x|
  {
    var s := x + [c] + y;
    var n := Span(s, p);
    assert s[|x|] == c;
  }

  predicate NotSpace(c: char) { !IsSpace(c) }

  /** str.split() without a separator: the maximal runs of non-whitespace,
      left to right. */
  function Words(s: string): seq<string>
    decreases |s|
  {
    if s == [] then []
    else if IsSpace(s[0]) then Words(s[1..])
    else
      var n := Span(s, NotSpace);
      [s[..n]] + Words(s[n..])
  }

  /** A word: non-empty, without whitespace. */
  predicate IsWord(w: string) {
    w != [] && forall i :: 0 <= i < |w| ==> !IsSpace(w[i])
  }

  /** Every piece str.split() returns is a word. */
  lemma {:induction false} WordsAreWords(s: string)
    ensures forall k :: 0 <= k < |Words(s)| ==> IsWord(Words(s)[k])
    decreases |s|
  {
    if s != [] {
      if IsSpace(s[0]) {
        WordsAreWords(s[1..]);
      } else {
        var n := Span(s, NotSpace);
        WordsAreWords(s[n..]);
        assert IsWord(s[..n]);
      }
    }
  }

  /** Words written with single spaces between them split back into the
      same words. */
  lemma {:induction false} WordsOfJoin(ws: seq<string>)
    requires forall k :: 0 <= k < |ws| ==> IsWord(ws[k])
    ensures Words(Join(ws, ' ')) == ws
    decreases |ws|
  {
    if |ws| == 1 {
      WordsOfWord(ws[0], []);
      assert ws[0] + [] == ws[0];
    } else if |ws| > 1 {
      var rest := Join(ws[1..], ' ');
      WordsOfJoin(ws[1..]);
      WordsOfWord(ws[0], [' '] + rest);
      var t := [' '] + rest;
      assert t[1..] == rest;
      assert ws[0] + [' '] + rest == ws[0] + t;
      assert ws == [ws[0]] + ws[1..];
    }
  }

  /** A word followed by nothing or by whitespace is split off whole. */
  lemma WordsOfWord(w: string, t: string)
    requires IsWord(w)
    requires t == [] || IsSpace(t[0])
    ensures Words(w + t) == [w] + Words(t)
  {
    var s := w + t;
    if t == [] {
      assert s == w + [] && Span(s, NotSpace) == |w|;
    } else {
      SpanAtFirstFailure(w, t[0], t[1..], NotSpace);
      assert s == w + [t[0]] + t[1..];
    }
    assert s[..|w|] == w && s[|w|..] == t;
  }

  /** str.split(sep) for a one-character separator. */
  function SplitOn(s: string, sep: char): (r: seq<string>)
    ensures |r| >= 1
    ensures forall k :: 0 <= k < |r| ==> sep !in r[k]
  {
    if s == [] then [[]]
    else
      var rest := SplitOn(s[1..], sep);
      assert s == [s[0]] + s[1..];
      if s[0] == sep then [[]] + rest else [[s[0]] + rest[0]] + rest[1..]
  }

  /** There is one more piece than there are separators. */
  lemma {:induction false} SplitOnCount(s: string, sep: char)
    ensures |SplitOn(s, sep)| == multiset(s)[sep] + 1
  {
    if s != [] {
      SplitOnUnfold(s, sep);
      SplitOnCount(s[1..], sep);
      assert s == [s[0]] + s[1..];
    }
  }

  /** sep.join(parts) */
  function Join(parts: seq<string>, sep: char): string {
    if |parts| <= 1 then (if parts == [] then [] else parts[0])
    else parts[0] + [sep] + Join(parts[1..], sep)
  }

  /** Splitting and joining again on the same separator is the identity. */
  lemma {:induction false} JoinSplitOn(s: string, sep: char)
    ensures Join(SplitOn(s, sep), sep) == s
  {
    if s != [] {
      var rest := SplitOn(s[1..], sep);
      SplitOnUnfold(s, sep);
      JoinSplitOn(s[1..], sep);
      if s[0] == sep {
        JoinCons([], rest, sep);
      } else {
        JoinPrepend(s[0], rest, sep);
      }
      assert s == [s[0]] + s[1..];
    }
  }

  lemma SplitOnUnfold(s: string, sep: char)
    requires s != []
    ensures s[0] == sep ==> SplitOn(s, sep) == [[]] + SplitOn(s[1..], sep)
    ensures s[0] != sep ==> SplitOn(s, sep) == [[s[0]] + SplitOn(s[1..], sep)[0]] + SplitOn(s[1..], sep)[1..]
  {
  }

  lemma JoinCons(x: string, parts: seq<string>, sep: char)
    requires parts != []
    ensures Join([x] + parts, sep) == x + [sep] + Join(parts, sep)
  {
    assert ([x] + parts)[1..] == parts;
  }

  /** Putting a character in front of the first part puts it in front of
      the joined string. */
  lemma JoinPrepend(c: char, parts: seq<string>, sep: char)
    requires parts != []
    ensures Join([[c] + parts[0]] + parts[1..], sep) == [c] + Join(parts, sep)
  {
    var r := [[c] + parts[0]] + parts[1..];
    assert r[0] == [c] + parts[0] && r[1..] == parts[1..];
  }

  // ---------------------------------------------------------------- int()

  function DigitValue(c: char): nat requires IsDigit(c) { c as int - '0' as int }

  /** Value of a string of decimal digits (leading zeros allowed). */
  function DigitsValue(d: string): nat
    requires AllDigits(d)
  {
    if d == [] then 0 else 10 * DigitsValue(d[..|d| - 1]) + DigitValue(d[|d| - 1])
  }

  /** The body int() accepts after the sign: a digit, then digits, each
      possibly preceded by a single underscore (so underscores sit only
      between two digits). */
  predicate IsDigitGroups(b: string)
    decreases |b|
  {
    && |b| > 0 && IsDigit(b[0])
    && (|b| == 1 || if b[1] == '_' then |b| > 2 && IsDigitGroups(b[2..]) else IsDigitGroups(b[1..]))
  }

  /** Digit groups hold nothing but digits and underscores. */
  lemma {:induction false} DigitGroupsChars(b: string)
    requires IsDigitGroups(b)
    ensures forall i :: 0 <= i < |b| ==> IsDigit(b[i]) || b[i] == '_'
    decreases |b|
  {
    if |b| > 1 {
      var k := if b[1] == '_' then 2 else 1;
      DigitGroupsChars(b[k..]);
      forall i | k <= i < |b| ensures IsDigit(b[i]) || b[i] == '_' {
        assert b[i] == b[k..][i - k];
      }
    }
  }

  /** A non-empty run of digits is a digit group. */
  lemma {:induction false} DigitsAreGroups(d: string)
    requires |d| > 0 && AllDigits(d)
    ensures IsDigitGroups(d)
    decreases |d|
  {
    if |d| > 1 {
      DigitsAreGroups(d[1..]);
    }
  }

  /** s.replace('_', '') */
  function WithoutUnderscores(b: string): string {
    if b == [] then []
    else (if b[0] == '_' then [] else [b[0]]) + WithoutUnderscores(b[1..])
  }

  /** Dropping the underscores of digits and underscores leaves digits. */
  lemma {:induction false} WithoutUnderscoresDigits(b: string)
    requires forall i :: 0 <= i < |b| ==> IsDigit(b[i]) || b[i] == '_'
    ensures AllDigits(WithoutUnderscores(b))
  {
    if b != [] {
      WithoutUnderscoresDigits(b[1..]);
    }
  }

  /** Without an underscore there is nothing to drop. */
  lemma {:induction false} WithoutUnderscoresOfDigits(d: string)
    requires AllDigits(d)
    ensures WithoutUnderscores(d) == d
  {
    if d != [] {
      WithoutUnderscoresOfDigits(d[1..]);
      assert d == [d[0]] + d[1..];
    }
  }

  function ParseDigits(b: string): Option<nat> {
    if IsDigitGroups(b) then
      DigitGroupsChars(b);
      WithoutUnderscoresDigits(b);
      Some(DigitsValue(WithoutUnderscores(b)))
    else None
  }

  /** Python's int(s) for a str and base 10: surrounding whitespace, an
      optional sign, digit groups; None where int() raises ValueError. */
  function ParseInt(s: string): Option<int> {
    ParseSigned(Strip(s))
  }

  /** int() on a string without surrounding whitespace. */
  function ParseSigned(t: string): Option<int> {
    if |t| > 0 && (t[0] == '+' || t[0] == '-') then
      match ParseDigits(t[1..])
      case None => None
      case Some(v) => Some(if t[0] == '-' then -(v as int) else v as int)
    else
      match ParseDigits(t)
      case None => None
      case Some(v) => Some(v)
  }

  function DigitChar(d: nat): char requires d < 10 { ('0' as int + d) as char }

  /** str(n) for a non-negative integer. */
  function NatToString(n: nat): (r: string)
    ensures |r| > 0 && AllDigits(r)
  {
    if n < 10 then [DigitChar(n)] else NatToString(n / 10) + [DigitChar(n % 10)]
  }

  /** str(n) */
  function IntToString(n: int): string {
    if n < 0 then "-" + NatToString(-n) else NatToString(n)
  }

  lemma {:induction false} DigitsValueOfNatToString(n: nat)
    ensures DigitsValue(NatToString(n)) == n
  {
    if n >= 10 {
      DigitsValueOfNatToString(n / 10);
      var r := NatToString(n);
      assert r[..|r| - 1] == NatToString(n / 10);
    }
  }

  /** A string that starts and ends with a non-space is its own strip. */
  lemma EndsStrip(s: string)
    requires s != [] && !IsSpace(s[0]) && !IsSpace(s[|s| - 1])
    ensures Strip(s) == s
  {
  }

  lemma ParseDigitsOfDigits(d: string)
    requires |d| > 0 && AllDigits(d)
    ensures ParseDigits(d) == Some(DigitsValue(d))
  {
    DigitsAreGroups(d);
    WithoutUnderscoresOfDigits(d);
  }

  lemma StripNegated(d: string)
    requires |d| > 0 && IsDigit(d[|d| - 1])
    ensures Strip("-" + d) == "-" + d
  {
    var s := "-" + d;
    assert s[0] == '-' && s[|s| - 1] == d[|d| - 1];
    EndsStrip(s);
  }

  /** A leading '-' negates what the digits after it parse to. */
  lemma NegativeSign(b: string, v: nat)
    requires ParseDigits(b) == Some(v)
    ensures ParseSigned("-" + b) == Some(-(v as int))
  {
    assert ("-" + b)[1..] == b;
  }

  lemma StripDigits(d: string)
    requires |d| > 0 && AllDigits(d)
    ensures Strip(d) == d
  {
    assert IsDigit(d[0]) && IsDigit(d[|d| - 1]);
    EndsStrip(d);
  }

  lemma ParseIntUnsigned(b: string, v: nat)
    requires Strip(b) == b && |b| > 0 && IsDigit(b[0]) && ParseDigits(b) == Some(v)
    ensures ParseInt(b) == Some(v as int)
  {
  }

  lemma ParseIntNegated(b: string, v: nat)
    requires Strip("-" + b) == "-" + b && ParseDigits(b) == Some(v)
    ensures ParseInt("-" + b) == Some(-(v as int))
  {
    NegativeSign(b, v);
  }

  /** int() reads back what str() writes: int(str(n)) == n for every integer. */
  lemma ParseIntOfIntToString(n: int)
    ensures ParseInt(IntToString(n)) == Some(n)
  {
    var m: nat := if n < 0 then -n else n;
    var d := NatToString(m);
    DigitsValueOfNatToString(m);
    ParseDigitsOfDigits(d);
    if n < 0 {
      StripNegated(d);
      ParseIntNegated(d, m);
    } else {
      StripDigits(d);
      ParseIntUnsigned(d, m);
    }
  }

  /** int() succeeds only on a non-blank string; whatever it accepts holds
      nothing but whitespace, a sign, digits and underscores. */
  lemma ParseIntAccepts(s: string)
    requires ParseInt(s).Some?
    ensures Strip(s) != []
    ensures forall i :: 0 <= i < |Strip(s)| ==> IsNumeralChar(Strip(s)[i])
  {
    var t := Strip(s);
    assert ParseSigned(t).Some?;
    if |t| > 0 && (t[0] == '+' || t[0] == '-') {
      var b := t[1..];
      DigitGroupsChars(b);
      forall i | 0 <= i < |t| ensures IsNumeralChar(t[i]) {
        if i > 0 { assert t[i] == b[i - 1]; }
      }
    } else {
      DigitGroupsChars(t);
    }
  }
}
