/** Hand-written matchers for the two regular expressions of the classifiers,
    with `re.search` semantics (the leftmost position where the pattern
    matches), and the decimal conversion applied to the size captures.

    - `grade\s*(\d)\s*:` (the explicit Wagner grade)
    - `approx\.?\s*(\d+\.?\d*)\s*x\s*(\d+\.?\d*)\s*cm` (the wound size)

    Each pattern is given twice: as a matcher that runs greedily from a start
    position (`GradeAt`, `SizeAt`), and as a predicate over the positions of
    its pieces (`GradeSpans`, `SizeSpans`) that reads like the regular
    expression. Lemmas show the two agree, so the matchers find exactly the
    matches the regular expression has. Greedy matching needs no backtracking
    here: no piece can end on a character the next piece could start with. */
module Regex {
  import opened Text

  /** `\s` of a Python str pattern, on ASCII: tab, line feed, vertical tab,
      form feed, carriage return, the separators U+001C..U+001F, space. */
  predicate IsSpace(c: char) { 9 <= c as int <= 13 || 28 <= c as int <= 32 }

  /** `\d` on ASCII. */
  predicate IsDigit(c: char) { '0' <= c <= '9' }

  datatype CharClass = Space | Digit

  predicate InClass(c: char, k: CharClass)
  {
    match k
    case Space => IsSpace(c)
    case Digit => IsDigit(c)
  }

  /** Every character of s[i..j] is in class k. */
  predicate AllIn(s: string, i: nat, j: nat, k: CharClass)
  {
    j <= |s| && forall p | i <= p < j :: InClass(s[p], k)
  }

  /** Greedy `\s*` or `\d*` from i: the end of the longest run of class k. */
  function Skip(s: string, i: nat, k: CharClass): (j: nat)
    requires i <= |s|
    ensures i <= j <= |s| && AllIn(s, i, j, k)
    ensures j == |s| || !InClass(s[j], k)
    decreases |s| - i
  {
    if i < |s| && InClass(s[i], k) then Skip(s, i + 1, k) else i
  }

  /** A run of class k that stops where the class does is the greedy one. */
  lemma SkipUnique(s: string, i: nat, j: nat, k: CharClass)
    requires i <= j <= |s| && AllIn(s, i, j, k)
    requires j == |s| || !InClass(s[j], k)
    ensures Skip(s, i, k) == j
  {
  }

  datatype Found<T> = Found(start: nat, groups: T)

  /** `re.search`: tries the pattern `at` at positions i, i + 1, ..., |s| and
      reports the first position where it matches, with its groups. */
  function SearchFrom<T(==)>(s: string, at: (string, nat) -> Option<T>, i: nat): (r: Option<Found<T>>)
    requires i <= |s|
    ensures r.Some? ==> i <= r.value.start <= |s| && at(s, r.value.start) == Some(r.value.groups)
    ensures r.Some? ==> forall j | i <= j < r.value.start :: at(s, j).None?
    ensures r.None? ==> forall j | i <= j <= |s| :: at(s, j).None?
    decreases |s| - i
  {
    match at(s, i)
    case Some(g) => Some(Found(i, g))
    case None => if i == |s| then None else SearchFrom(s, at, i + 1)
  }

  // ---------------------------------------------------------------------
  // grade\s*(\d)\s*:

  /** The pattern tried at position i; on a match, the digit it captures. */
  function GradeAt(s: string, i: nat): Option<char>
  {
    if i + 5 <= |s| && s[i..i + 5] == "grade" then
      var p := Skip(s, i + 5, Space);
      if p < |s| && IsDigit(s[p]) then
        var q := Skip(s, p + 1, Space);
        if q < |s| && s[q] == ':' then Some(s[p]) else None
      else None
    else None
  }

  /** The pattern read declaratively: "grade" at i, blanks up to p, the
      captured digit at p, blanks up to q, and ':' at q. */
  predicate GradeSpans(s: string, i: nat, p: nat, q: nat)
  {
    i + 5 <= p < q < |s| && s[i..i + 5] == "grade" && AllIn(s, i + 5, p, Space)
    && IsDigit(s[p]) && AllIn(s, p + 1, q, Space) && s[q] == ':'
  }

  /** The matcher finds a match at i exactly when the pattern has one there,
      and captures the same digit. */
  lemma GradeAtAgrees(s: string, i: nat)
    ensures GradeAt(s, i).Some? ==>
              exists p: nat, q: nat :: GradeSpans(s, i, p, q) && s[p] == GradeAt(s, i).value
    ensures forall p: nat, q: nat | GradeSpans(s, i, p, q) :: GradeAt(s, i) == Some(s[p])
  {
    if GradeAt(s, i).Some? {
      var p := Skip(s, i + 5, Space);
      var q := Skip(s, p + 1, Space);
      assert GradeSpans(s, i, p, q);
    }
    forall p: nat, q: nat | GradeSpans(s, i, p, q)
      ensures GradeAt(s, i) == Some(s[p])
    {
      SkipUnique(s, i + 5, p, Space);
      SkipUnique(s, p + 1, q, Space);
    }
  }

  /** `re.search(r'grade\s*(\d)\s*:', s)`. */
  function SearchGrade(s: string): (r: Option<Found<char>>)
    ensures r.Some? ==> IsDigit(r.value.groups)
    ensures r.Some? ==> r.value.start + 5 <= |s| && s[r.value.start..r.value.start + 5] == "grade"
  {
    SearchFrom(s, GradeAt, 0)
  }

  /** `SearchGrade` reports the leftmost match of the pattern and its digit,
      and reports none only when the pattern matches nowhere. */
  lemma SearchGradeLeftmost(s: string)
    ensures SearchGrade(s).Some? ==>
              var f := SearchGrade(s).value;
              IsDigit(f.groups) && exists p: nat, q: nat :: GradeSpans(s, f.start, p, q) && s[p] == f.groups
    ensures forall j: nat, p: nat, q: nat | GradeSpans(s, j, p, q) ::
              SearchGrade(s).Some? && SearchGrade(s).value.start <= j
  {
    if SearchGrade(s).Some? {
      GradeAtAgrees(s, SearchGrade(s).value.start);
    }
    forall j: nat, p: nat, q: nat | GradeSpans(s, j, p, q)
      ensures SearchGrade(s).Some? && SearchGrade(s).value.start <= j
    {
      GradeAtAgrees(s, j);
    }
  }

  // ---------------------------------------------------------------------
  // approx\.?\s*(\d+\.?\d*)\s*x\s*(\d+\.?\d*)\s*cm

  /** `\d+\.?\d*` covers exactly s[a..b]: digits up to some d, then either
      nothing more or '.' followed by digits. */
  predicate NumeralSpan(s: string, a: nat, b: nat)
  {
    b <= |s| &&
    exists d | a < d <= b :: AllIn(s, a, d, Digit) && (d == b || (s[d] == '.' && AllIn(s, d + 1, b, Digit)))
  }

  /** Greedy `\d+\.?\d*` from a: the end of the numeral, when a digit starts one. */
  function NumeralEnd(s: string, a: nat): (r: Option<nat>)
    requires a <= |s|
    ensures r.Some? ==> a < r.value <= |s| && NumeralSpan(s, a, r.value)
    ensures r.Some? ==> r.value == |s| || !IsDigit(s[r.value])
    ensures r.None? ==> a == |s| || !IsDigit(s[a])
  {
    var d := Skip(s, a, Digit);
    if d == a then None
    else if d < |s| && s[d] == '.' then Some(Skip(s, d + 1, Digit))
    else Some(d)
  }

  /** A numeral followed by neither a digit nor '.' is the greedy one. */
  lemma NumeralEndUnique(s: string, a: nat, b: nat)
    requires NumeralSpan(s, a, b) && b < |s| && !IsDigit(s[b]) && s[b] != '.'
    ensures NumeralEnd(s, a) == Some(b)
  {
    var d :| a < d <= b && AllIn(s, a, d, Digit) && (d == b || (s[d] == '.' && AllIn(s, d + 1, b, Digit)));
    SkipUnique(s, a, d, Digit);
    if d < b {
      SkipUnique(s, d + 1, b, Digit);
    }
  }

  /** Where the pieces of a size match lie: the first numeral is s[a1..b1],
      'x' is at x, the second numeral is s[a2..b2] and "cm" starts at c. */
  datatype SizePos = SizePos(a1: nat, b1: nat, x: nat, a2: nat, b2: nat, c: nat)

  /** `approx\.?\s*` from i up to a1. */
  predicate ApproxSpans(s: string, i: nat, a1: nat)
  {
    i + 6 <= a1 <= |s| && s[i..i + 6] == "approx"
    && (AllIn(s, i + 6, a1, Space) || (i + 7 <= a1 && s[i + 6] == '.' && AllIn(s, i + 7, a1, Space)))
  }

  /** `\s*x\s*` from b1 up to a2, with the 'x' at x. */
  predicate BySpans(s: string, b1: nat, x: nat, a2: nat)
  {
    b1 <= x < a2 <= |s| && AllIn(s, b1, x, Space) && s[x] == 'x' && AllIn(s, x + 1, a2, Space)
  }

  /** `\s*cm` from b2, with "cm" at c. */
  predicate CmSpans(s: string, b2: nat, c: nat)
  {
    b2 <= c && c + 2 <= |s| && AllIn(s, b2, c, Space) && s[c..c + 2] == "cm"
  }

  /** The size pattern read declaratively, at i, with its pieces at `p`. */
  predicate SizeSpans(s: string, i: nat, p: SizePos)
  {
    ApproxSpans(s, i, p.a1) && NumeralSpan(s, p.a1, p.b1) && BySpans(s, p.b1, p.x, p.a2)
    && NumeralSpan(s, p.a2, p.b2) && CmSpans(s, p.b2, p.c)
  }

  /** The size pattern run greedily from position i. */
  function SizeMatchAt(s: string, i: nat): (r: Option<SizePos>)
    ensures r.Some? ==> SizeSpans(s, i, r.value)
  {
    if !(i + 6 <= |s| && s[i..i + 6] == "approx") then None
    else
      var a1 := Skip(s, if i + 6 < |s| && s[i + 6] == '.' then i + 7 else i + 6, Space);
      var n1 := NumeralEnd(s, a1);
      if n1.None? then None
      else
        var x := Skip(s, n1.value, Space);
        if !(x < |s| && s[x] == 'x') then None
        else
          var a2 := Skip(s, x + 1, Space);
          var n2 := NumeralEnd(s, a2);
          if n2.None? then None
          else
            var c := Skip(s, n2.value, Space);
            if !(c + 2 <= |s| && s[c..c + 2] == "cm") then None
            else Some(SizePos(a1, n1.value, x, a2, n2.value, c))
  }

  lemma ApproxUnique(s: string, i: nat, a1: nat)
    requires ApproxSpans(s, i, a1) && a1 < |s| && IsDigit(s[a1])
    ensures Skip(s, if i + 6 < |s| && s[i + 6] == '.' then i + 7 else i + 6, Space) == a1
  {
    if s[i + 6] == '.' {
      SkipUnique(s, i + 7, a1, Space);
    } else {
      SkipUnique(s, i + 6, a1, Space);
    }
  }

  /** Where the pattern matches at i, the matcher finds that very match:
      the positions of a match are determined by its start. */
  lemma SizeMatchAtComplete(s: string, i: nat, p: SizePos)
    requires SizeSpans(s, i, p)
    ensures SizeMatchAt(s, i) == Some(p)
  {
    ApproxUnique(s, i, p.a1);
    NumeralEndUnique(s, p.a1, p.b1);
    SkipUnique(s, p.b1, p.x, Space);
    SkipUnique(s, p.x + 1, p.a2, Space);
    NumeralEndUnique(s, p.a2, p.b2);
    SkipUnique(s, p.b2, p.c, Space);
  }

  /** The pattern tried at position i; on a match, its two captured numerals. */
  function SizeAt(s: string, i: nat): (r: Option<(string, string)>)
    ensures r.Some? ==> |r.value.0| > 0 && IsDigit(r.value.0[0]) && |r.value.1| > 0 && IsDigit(r.value.1[0])
  {
    match SizeMatchAt(s, i)
    case None => None
    case Some(p) => Some((s[p.a1..p.b1], s[p.a2..p.b2]))
  }

  /** `re.search(r'approx\.?\s*(\d+\.?\d*)\s*x\s*(\d+\.?\d*)\s*cm', s)`. */
  function SearchSize(s: string): (r: Option<Found<(string, string)>>)
    ensures r.Some? ==> |r.value.groups.0| > 0 && IsDigit(r.value.groups.0[0])
    ensures r.Some? ==> |r.value.groups.1| > 0 && IsDigit(r.value.groups.1[0])
  {
    SearchFrom(s, SizeAt, 0)
  }

  /** `SearchSize` reports the leftmost match of the pattern with its two
      captures, and reports none only when the pattern matches nowhere. */
  lemma SearchSizeLeftmost(s: string)
    ensures SearchSize(s).Some? ==>
              var f := SearchSize(s).value;
              exists p: SizePos :: SizeSpans(s, f.start, p) && f.groups == (s[p.a1..p.b1], s[p.a2..p.b2])
    ensures forall j: nat, p: SizePos | SizeSpans(s, j, p) ::
              SearchSize(s).Some? && SearchSize(s).value.start <= j
  {
    if SearchSize(s).Some? {
      var f := SearchSize(s).value;
      assert SizeAt(s, f.start) == Some(f.groups);
      var p := SizeMatchAt(s, f.start).value;
      assert SizeSpans(s, f.start, p) && f.groups == (s[p.a1..p.b1], s[p.a2..p.b2]);
    }
    forall j: nat, p: SizePos | SizeSpans(s, j, p)
      ensures SearchSize(s).Some? && SearchSize(s).value.start <= j
    {
      SizeMatchAtComplete(s, j, p);
      assert SizeAt(s, j).Some?;
    }
  }

  // ---------------------------------------------------------------------
  // float() on the captured numerals

  function Pow10(n: nat): (p: nat)
    ensures p >= 1
  {
    if n == 0 then 1 else 10 * Pow10(n - 1)
  }

  /** The value of the decimal digits s[i..j]. */
  function DigitsValue(s: string, i: nat, j: nat): (v: nat)
    requires i <= j && AllIn(s, i, j, Digit)
    ensures v < Pow10(j - i)
    decreases j - i
  {
    if i == j then 0 else DigitsValue(s, i, j - 1) * 10 + (s[j - 1] as int - '0' as int)
  }

  /** The value of a digit, 0 for any other character. */
  function DigitOf(c: char): nat
  {
    if IsDigit(c) then c as int - '0' as int else 0
  }

  /** The numeral read left to right as one whole number, its '.' skipped:
      "7.61" reads 761 and "7." reads 7. */
  function ScaledValue(t: string): nat
  {
    if |t| == 0 then 0
    else if t[|t| - 1] == '.' then ScaledValue(t[..|t| - 1])
    else ScaledValue(t[..|t| - 1]) * 10 + DigitOf(t[|t| - 1])
  }

  /** How many digits follow the '.' of a numeral whose integer digits end at
      d (none when there is no '.'). */
  function FractionDigits(t: string, d: nat): nat
  {
    if d < |t| then |t| - d - 1 else 0
  }

  /** `float(t)` for text of the form `\d+\.?\d*`, as an exact rational:
      the digits before the point, shifted past the digits after it, plus
      those digits, over a power of ten. Text of any other form gives None
      (`float()` is only ever applied to what the size pattern captured).
      The value is the numeral read without its '.', divided by ten to the
      number of fraction digits, so every fraction digit counts: "7.6" is
      76 / 10 and "7.61" is 761 / 100. */
  function ParseDecimal(t: string): (r: Option<real>)
    ensures r.Some? <==> NumeralSpan(t, 0, |t|)
    ensures r.Some? ==>
              var d := Skip(t, 0, Digit);
              DigitsValue(t, 0, d) as real <= r.value < DigitsValue(t, 0, d) as real + 1.0
    ensures r.Some? ==>
              r.value == ScaledValue(t) as real / Pow10(FractionDigits(t, Skip(t, 0, Digit))) as real
  {
    NumeralShape(t);
    var d := Skip(t, 0, Digit);
    if d == 0 then
      None
    else if d == |t| then
      ScaledDigits(t, d);
      assert t[..d] == t;
      assert Pow10(FractionDigits(t, d)) == 1;
      Some(DigitsValue(t, 0, d) as real)
    else if t[d] == '.' && Skip(t, d + 1, Digit) == |t| then
      var whole, n, p := DigitsValue(t, 0, d), DigitsValue(t, d + 1, |t|), Pow10(|t| - d - 1);
      ScaledWhole(t, d);
      assert Pow10(FractionDigits(t, d)) == p;
      FractionBounds(whole, n, p);
      Some((whole * p + n) as real / p as real)
    else
      None
  }

  /** With n < p, (whole * p + n) / p lies in [whole, whole + 1). */
  lemma FractionBounds(whole: nat, n: nat, p: nat)
    requires n < p
    ensures whole as real <= (whole * p + n) as real / p as real < whole as real + 1.0
  {
    FractionBelowOne(n, p);
    assert (whole * p + n) as real / p as real == whole as real + n as real / p as real;
  }

  /** `ScaledFraction` for the whole numeral. */
  lemma ScaledWhole(t: string, d: nat)
    requires d < |t| && AllIn(t, 0, d, Digit) && t[d] == '.' && AllIn(t, d + 1, |t|, Digit)
    ensures ScaledValue(t) == DigitsValue(t, 0, d) * Pow10(|t| - d - 1) + DigitsValue(t, d + 1, |t|)
  {
    ScaledFraction(t, d, |t|);
    assert t[..|t|] == t;
  }

  /** A run of digits reads the same either way. */
  lemma {:induction false} ScaledDigits(t: string, j: nat)
    requires j <= |t| && AllIn(t, 0, j, Digit)
    ensures ScaledValue(t[..j]) == DigitsValue(t, 0, j)
  {
    if j > 0 {
      ScaledDigits(t, j - 1);
      assert t[..j][..j - 1] == t[..j - 1];
    }
  }

  /** Digits, a '.', then digits up to j: the whole-number reading is the
      integer part shifted by the fraction digits, plus the fraction digits. */
  lemma {:induction false} ScaledFraction(t: string, d: nat, j: nat)
    requires d < j <= |t| && AllIn(t, 0, d, Digit) && t[d] == '.' && AllIn(t, d + 1, j, Digit)
    ensures ScaledValue(t[..j]) == DigitsValue(t, 0, d) * Pow10(j - d - 1) + DigitsValue(t, d + 1, j)
    decreases j
  {
    var prefix := t[..j];
    assert prefix[..j - 1] == t[..j - 1];
    if j == d + 1 {
      ScaledDigits(t, d);
    } else {
      ScaledFraction(t, d, j - 1);
      var c := DigitOf(t[j - 1]);
      assert InClass(t[j - 1], Digit);
      assert ScaledValue(prefix) == ScaledValue(t[..j - 1]) * 10 + c;
      assert DigitsValue(t, d + 1, j) == DigitsValue(t, d + 1, j - 1) * 10 + c;
      assert Pow10(j - d - 1) == 10 * Pow10(j - d - 2);
      ShiftDigit(DigitsValue(t, 0, d), Pow10(j - d - 2), DigitsValue(t, d + 1, j - 1), c);
    }
  }

  /** Appending a digit c to the reading shifts the integer part by one more
      place. */
  lemma ShiftDigit(whole: nat, shift: nat, frac: nat, c: nat)
    ensures (whole * shift + frac) * 10 + c == whole * (10 * shift) + (frac * 10 + c)
  {
  }

  /** A fraction n / p with n < p lies in [0, 1). */
  lemma FractionBelowOne(n: nat, p: nat)
    requires n < p
    ensures 0.0 <= n as real / p as real < 1.0
  {
  }

  /** The whole of t is a numeral exactly when the greedy digit run from 0 is
      not empty and either reaches the end or stops on a '.' followed by
      digits to the end. */
  lemma NumeralShape(t: string)
    ensures NumeralSpan(t, 0, |t|) <==>
              var d := Skip(t, 0, Digit);
              0 < d && (d == |t| || (t[d] == '.' && Skip(t, d + 1, Digit) == |t|))
  {
    var d := Skip(t, 0, Digit);
    if NumeralSpan(t, 0, |t|) {
      var e :| 0 < e <= |t| && AllIn(t, 0, e, Digit)
                && (e == |t| || (t[e] == '.' && AllIn(t, e + 1, |t|, Digit)));
      SkipUnique(t, 0, e, Digit);
      if e < |t| {
        SkipUnique(t, e + 1, |t|, Digit);
      }
    }
    if 0 < d && (d == |t| || (t[d] == '.' && Skip(t, d + 1, Digit) == |t|)) {
      assert AllIn(t, 0, d, Digit);
    }
  }

  /** A numeral inside s is a numeral on its own once cut out. */
  lemma NumeralSlice(s: string, a: nat, b: nat)
    requires a <= b && NumeralSpan(s, a, b)
    ensures NumeralSpan(s[a..b], 0, b - a)
  {
    var d :| a < d <= b && AllIn(s, a, d, Digit) && (d == b || (s[d] == '.' && AllIn(s, d + 1, b, Digit)));
    var t := s[a..b];
    assert AllIn(t, 0, d - a, Digit);
    assert d - a == b - a || (t[d - a] == '.' && AllIn(t, d - a + 1, b - a, Digit));
  }

  /** Both captures of a size match are numerals on their own. */
  lemma SizeGroupsNumerals(s: string)
    requires SearchSize(s).Some?
    ensures var g := SearchSize(s).value.groups;
      NumeralSpan(g.0, 0, |g.0|) && NumeralSpan(g.1, 0, |g.1|)
  {
    SearchSizeLeftmost(s);
    var f := SearchSize(s).value;
    var p: SizePos :| SizeSpans(s, f.start, p) && f.groups == (s[p.a1..p.b1], s[p.a2..p.b2]);
    NumeralSlice(s, p.a1, p.b1);
    NumeralSlice(s, p.a2, p.b2);
  }

  /** Both captures of a size match convert: the `except ValueError` branch
      around the conversion can never run. */
  lemma SizeGroupsParse(s: string)
    requires SearchSize(s).Some?
    ensures ParseDecimal(SearchSize(s).value.groups.0).Some?
    ensures ParseDecimal(SearchSize(s).value.groups.1).Some?
  {
    SizeGroupsNumerals(s);
  }
}
