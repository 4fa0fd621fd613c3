/** The numeric-field pattern `^(?:\d+|\d*\.\d+)$` of cop_mod.py, read with
    Python's `re.match`, and the `float(...)` / `int(...)` conversions that the
    prediction branches apply to fields that passed it. */
module Numeral {

  datatype Option<T> = None | Some(value: T)

  predicate IsDigit(c: char) { '0' <= c <= '9' }

  predicate AllDigits(s: string) { forall i | 0 <= i < |s| :: IsDigit(s[i]) }

  // ---------------------------------------------------------------------------
  // Reference definition of the language the pattern accepts
  // ---------------------------------------------------------------------------

  /** The body of the pattern, `\d+|\d*\.\d+`: one or more digits, or optional
      digits, a single '.', and one or more digits. */
  ghost predicate IsNumeral(s: string)
  {
    || (|s| > 0 && AllDigits(s))
    || exists k | 0 <= k < |s| - 1 :: s[k] == '.' && AllDigits(s[..k]) && AllDigits(s[k + 1..])
  }

  /** `^` anchors at the start; Python's `$` (without MULTILINE) matches at the
      end of the string or just before one newline that ends it. */
  ghost predicate InPatternLanguage(s: string)
  {
    IsNumeral(s) || (|s| > 0 && s[|s| - 1] == '\n' && IsNumeral(s[..|s| - 1]))
  }

  // ---------------------------------------------------------------------------
  // The recogniser
  // ---------------------------------------------------------------------------

  /** The end of the run of digits that starts at `i`. */
  function DigitRun(s: string, i: nat): (j: nat)
    requires i <= |s|
    ensures i <= j <= |s|
    ensures forall m | i <= m < j :: IsDigit(s[m])
    ensures j < |s| ==> !IsDigit(s[j])
    decreases |s| - i
  {
    if i < |s| && IsDigit(s[i]) then DigitRun(s, i + 1) else i
  }

  /** Where a match of the pattern body from the start of `s` ends, if the
      body matches there at all; digits are consumed greedily, then an optional
      '.' that must be followed by at least one digit. */
  function BodyEnd(s: string): (r: Option<nat>)
    ensures r.Some? ==> 0 < r.value <= |s| && IsDigit(s[r.value - 1])
    ensures r.Some? ==> r.value < |s| ==> !IsDigit(s[r.value])
    ensures r.Some? ==> forall i | 0 <= i < r.value :: IsDigit(s[i]) || s[i] == '.'
  {
    var j := DigitRun(s, 0);
    if j < |s| && s[j] == '.' then
      var m := DigitRun(s, j + 1);
      if m > j + 1 then Some(m) else None
    else if j > 0 then Some(j) else None
  }

  /** `re.match("^(?:\d+|\d*\.\d+)$", s)` is truthy (cop_mod.py lines 95-97 and
      151-153). */
  function Matches(s: string): (b: bool)
    ensures b ==> BodyEnd(s).Some? && 0 < BodyEnd(s).value <= |s| && IsDigit(s[BodyEnd(s).value - 1])
  {
    match BodyEnd(s)
    case None => false
    case Some(e) => e == |s| || (e == |s| - 1 && s[e] == '\n')
  }

  /** The recogniser accepts exactly the language of the pattern. */
  lemma {:induction false} MatchesIff(s: string)
    ensures Matches(s) <==> InPatternLanguage(s)
  {
    if Matches(s) {
      var e := BodyEnd(s).value;
      var j := DigitRun(s, 0);
      var b := s[..e];
      if j < |s| && s[j] == '.' {
        assert b[..j] == s[..j] && b[j + 1..] == s[j + 1..e];
        assert b[j] == '.' && AllDigits(b[..j]) && AllDigits(b[j + 1..]);
        assert IsNumeral(b);
      } else {
        assert e == j && AllDigits(b);
      }
      if e == |s| - 1 {
        assert s[..|s| - 1] == b;
      } else {
        assert s == b;
      }
    } else {
      if IsNumeral(s) {
        NumeralBodyEnd(s, s);
        assert false;
      }
      if |s| > 0 && s[|s| - 1] == '\n' && IsNumeral(s[..|s| - 1]) {
        NumeralBodyEnd(s, s[..|s| - 1]);
        assert false;
      }
    }
  }

  /** A run of digits from `i` to `j` that cannot be extended is what
      DigitRun finds. */
  lemma {:induction false} DigitRunStops(s: string, i: nat, j: nat)
    requires i <= j <= |s|
    requires forall m | i <= m < j :: IsDigit(s[m])
    requires j < |s| ==> !IsDigit(s[j])
    ensures DigitRun(s, i) == j
    decreases j - i
  {
    if i < j {
      DigitRunStops(s, i + 1, j);
    }
  }

  /** A numeral at the front of `s`, followed by nothing or by a newline, is
      exactly what BodyEnd finds. */
  lemma {:induction false} NumeralBodyEnd(s: string, b: string)
    requires IsNumeral(b) && b <= s
    requires |b| < |s| ==> s[|b|] == '\n'
    ensures BodyEnd(s) == Some(|b|)
  {
    assert forall m | 0 <= m < |b| :: s[m] == b[m];
    if |b| > 0 && AllDigits(b) {
      DigitRunStops(s, 0, |b|);
    } else {
      var k :| 0 <= k < |b| - 1 && b[k] == '.' && AllDigits(b[..k]) && AllDigits(b[k + 1..]);
      assert s[..k] == b[..k] && s[k + 1..|b|] == b[k + 1..];
      DecimalBodyEnd(s, k, |b|);
    }
  }

  /** The same for a numeral with its '.' at position `k`. */
  lemma {:induction false} DecimalBodyEnd(s: string, k: nat, n: nat)
    requires k + 1 < n <= |s| && s[k] == '.'
    requires AllDigits(s[..k]) && AllDigits(s[k + 1..n])
    requires n < |s| ==> s[n] == '\n'
    ensures BodyEnd(s) == Some(n)
  {
    assert forall m | 0 <= m < k :: s[..k][m] == s[m];
    assert forall m | k + 1 <= m < n :: s[k + 1..n][m - k - 1] == s[m];
    DigitRunStops(s, 0, k);
    DigitRunStops(s, k + 1, n);
  }

  /** Every character of an accepted field is a digit or '.', except for one
      newline that may end it; there is at most one '.', and the body ends in a
      digit. So signs, exponents, spaces, "5." and "1.2.3" are all rejected. */
  lemma {:induction false} AcceptedShape(s: string)
    requires Matches(s)
    ensures forall i | 0 <= i < |s| :: IsDigit(s[i]) || s[i] == '.' || (i == |s| - 1 && s[i] == '\n')
    ensures forall i, j | 0 <= i < j < |s| :: !(s[i] == '.' && s[j] == '.')
    ensures s[|s| - 1] != '.'
  {
    var e := BodyEnd(s).value;
    var j := DigitRun(s, 0);
    if j < |s| && s[j] == '.' {
      var m := DigitRun(s, j + 1);
      assert m == e;
      forall i | 0 <= i < |s| && i != j
        ensures IsDigit(s[i]) || (i == |s| - 1 && s[i] == '\n')
      {
        if i < j {
        } else if i < m {
        } else {
          assert i == e == |s| - 1;
        }
      }
    } else {
      assert forall i | 0 <= i < |s| :: i < j || (i == j == |s| - 1 && s[i] == '\n');
    }
  }

  /** Concrete fields the validator accepts. "0" is among them, so the
      validator guarantees non-negativity, not positivity. */
  lemma AcceptedExamples()
    ensures Matches("123") && Matches("0.5") && Matches(".5") && Matches("0") && Matches("7\n")
  {
  }

  /** Concrete fields the validator rejects. */
  lemma RejectedExamples()
    ensures !Matches("") && !Matches(" ") && !Matches("5.") && !Matches("1.2.3")
    ensures !Matches("-1") && !Matches("+1") && !Matches("1e5") && !Matches(" 5") && !Matches("5\n\n")
  {
  }

  /** A field holding a character other than a digit, '.', or a final newline is
      rejected. */
  lemma {:induction false} ForeignCharRejected(s: string, i: nat)
    requires i < |s| && !IsDigit(s[i]) && s[i] != '.' && !(i == |s| - 1 && s[i] == '\n')
    ensures !Matches(s)
  {
    if Matches(s) { AcceptedShape(s); }
  }

  // ---------------------------------------------------------------------------
  // Conversions applied after validation
  // ---------------------------------------------------------------------------

  function Pow10(n: nat): (p: nat)
    ensures p >= 1
  {
    if n == 0 then 1 else 10 * Pow10(n - 1)
  }

  /** The value of a string of decimal digits. */
  function DigitsValue(s: string): (n: nat)
    requires AllDigits(s)
    ensures n < Pow10(|s|)
  {
    if s == [] then 0
    else DigitsValue(s[..|s| - 1]) * 10 + (s[|s| - 1] as int - '0' as int)
  }

  /** The whole part x plus the fraction y / p. */
  function Fraction(x: nat, y: nat, p: nat): (r: real)
    requires p > 0
    ensures 0.0 <= r
  {
    x as real + y as real / p as real
  }

  /** `float(s)` of an accepted field (cop_mod.py lines 123 and 178), as an exact
      decimal; an accepted field always converts and its value is never negative. */
  function DecimalValue(s: string): (r: real)
    requires Matches(s)
    ensures 0.0 <= r
    ensures AllDigits(s) ==> r == DigitsValue(s) as real
  {
    var e := BodyEnd(s).value;
    var j := DigitRun(s, 0);
    if j < e then
      Fraction(DigitsValue(s[..j]), DigitsValue(s[j + 1..e]), Pow10(e - j - 1))
    else
      assert s[..j] == s || !AllDigits(s);
      DigitsValue(s[..j]) as real
  }

  /** CPython's default bound on the number of digits `int(...)` converts from
      a decimal string (`sys.int_info.default_max_str_digits`); a longer one is
      a ValueError. */
  const MaxStrDigits: nat := 4300

  /** The text `int(...)` converts: the string without the one trailing
      newline that can reach it. */
  function IntText(s: string): (t: string)
    ensures t == s || s == t + "\n"
  {
    if |s| > 0 && s[|s| - 1] == '\n' then s[..|s| - 1] else s
  }

  /** The value of two digit strings written one after the other. */
  lemma {:induction false} DigitsAppend(a: string, b: string)
    requires AllDigits(a) && AllDigits(b)
    ensures AllDigits(a + b)
    ensures DigitsValue(a + b) == DigitsValue(a) * Pow10(|b|) + DigitsValue(b)
    decreases |b|
  {
    assert forall m | 0 <= m < |a + b| :: (a + b)[m] == if m < |a| then a[m] else b[m - |a|];
    if b != [] {
      var b' := b[..|b| - 1];
      var d := b[|b| - 1] as int - '0' as int;
      assert (a + b)[..|a + b| - 1] == a + b';
      assert (a + b)[|a + b| - 1] == b[|b| - 1];
      DigitsAppend(a, b');
      var x, p, y := DigitsValue(a), Pow10(|b'|), DigitsValue(b');
      assert DigitsValue(a + b) == (x * p + y) * 10 + d;
      assert DigitsValue(b) == y * 10 + d;
      assert Pow10(|b|) == 10 * p;
      Regroup(x, p, y, d);
    } else {
      assert a + b == a;
    }
  }

  /** (x * p + y) * 10 + d regrouped. */
  lemma Regroup(x: int, p: int, y: int, d: int)
    ensures (x * p + y) * 10 + d == x * (10 * p) + (y * 10 + d)
  {
  }

  /** A whole part x plus a fraction y over p is the integer x * p + y over p. */
  lemma ScaleBack(v: real, x: nat, y: nat, p: nat, z: nat)
    requires p > 0 && v == x as real + y as real / p as real && z == x * p + y
    ensures v == z as real / p as real
  {
    assert (x * p) as real == x as real * p as real;
  }

  /** `float(...)` of an accepted field with a '.': the digits `w` before it
      and `f` after it, optionally followed by a newline. The value is the
      whole part `w` plus the fraction digits `f` over ten to their number; so
      "12.5" is 12 + 5/10 and ".05" is 0 + 5/100. */
  lemma {:induction false} DecimalValueOfFraction(w: string, f: string, tail: string)
    requires AllDigits(w) && |f| > 0 && AllDigits(f) && (tail == "" || tail == "\n")
    ensures Matches(w + "." + f + tail)
    ensures DecimalValue(w + "." + f + tail) == DigitsValue(w) as real + DigitsValue(f) as real / Pow10(|f|) as real
  {
    var s := w + "." + f + tail;
    var k, n := |w|, |w| + 1 + |f|;
    FractionSplit(w, f, tail);
    DecimalValueSplit(s, k, n);
    assert s[..k] == w && s[k + 1..n] == f;
  }

  /** Equivalently, `float(...)` of such a field is the integer its digits
      spell without the '.', over ten to the number of fraction digits. */
  lemma {:induction false} ScaledDecimalValue(w: string, f: string, tail: string)
    requires AllDigits(w) && |f| > 0 && AllDigits(f) && (tail == "" || tail == "\n")
    ensures Matches(w + "." + f + tail) && AllDigits(w + f)
    ensures DecimalValue(w + "." + f + tail) == DigitsValue(w + f) as real / Pow10(|f|) as real
  {
    DecimalValueOfFraction(w, f, tail);
    DigitsAppend(w, f);
    ScaleBack(DecimalValue(w + "." + f + tail), DigitsValue(w), DigitsValue(f), Pow10(|f|), DigitsValue(w + f));
  }

  /** `float(...)` of an accepted field whose digit run stops at position k
      and whose match ends at n is the whole part before k plus the fraction
      digits after it over ten to their number. */
  lemma DecimalValueSplit(s: string, k: nat, n: nat)
    requires Matches(s) && BodyEnd(s) == Some(n) && DigitRun(s, 0) == k && k < n
    ensures AllDigits(s[..k]) && AllDigits(s[k + 1..n])
    ensures DecimalValue(s) == Fraction(DigitsValue(s[..k]), DigitsValue(s[k + 1..n]), Pow10(n - k - 1))
  {
  }

  /** Where the recogniser splits such a field: the digit run ends at the '.',
      and the match ends after the fraction digits. */
  lemma {:induction false} FractionSplit(w: string, f: string, tail: string)
    requires AllDigits(w) && |f| > 0 && AllDigits(f) && (tail == "" || tail == "\n")
    ensures var s := w + "." + f + tail;
      && BodyEnd(s) == Some(|w| + 1 + |f|) && DigitRun(s, 0) == |w| && Matches(s)
      && s[..|w|] == w && s[|w| + 1..|w| + 1 + |f|] == f
  {
    var s := w + "." + f + tail;
    var k, n := |w|, |w| + 1 + |f|;
    assert s[..k] == w && s[k] == '.' && s[k + 1..n] == f;
    assert n < |s| ==> s[n] == '\n';
    DecimalBodyEnd(s, k, n);
    assert forall m | 0 <= m < k :: s[m] == w[m];
    DigitRunStops(s, 0, k);
  }

  /** `float(...)` of an accepted field without a '.': the value of its
      digits, with or without a final newline. */
  lemma {:induction false} DecimalValueOfInteger(w: string, tail: string)
    requires |w| > 0 && AllDigits(w) && (tail == "" || tail == "\n")
    ensures Matches(w + tail)
    ensures DecimalValue(w + tail) == DigitsValue(w) as real
  {
    var s := w + tail;
    assert s[..|w|] == w;
    assert forall m | 0 <= m < |w| :: s[m] == w[m];
    DigitRunStops(s, 0, |w|);
  }

  /** Concrete values of `float(...)`. */
  lemma DecimalValueExamples()
    ensures Matches("0.5") && DecimalValue("0.5") == 0.5
    ensures Matches("12.5") && DecimalValue("12.5") == 12.5
  {
  }

  lemma IntegralValueExamples()
    ensures Matches("7\n") && DecimalValue("7\n") == 7.0
    ensures Matches("30") && DecimalValue("30") == 30.0
  {
  }

  /** `int(s)` for the strings that reach it: anything but a non-empty run of
      at most MaxStrDigits digits is a ValueError. */
  function ToInt(s: string): (r: Option<nat>)
    ensures r.Some? <==> |IntText(s)| > 0 && AllDigits(IntText(s)) && |IntText(s)| <= MaxStrDigits
  {
    var t := IntText(s);
    if |t| > 0 && AllDigits(t) && |t| <= MaxStrDigits then Some(DigitsValue(t)) else None
  }

  /** `int(...)` of a non-empty string of digits is its decimal value, unless
      the string has more digits than CPython converts. */
  lemma {:induction false} DigitsConvert(s: string)
    requires |s| > 0 && AllDigits(s)
    ensures ToInt(s) == if |s| <= MaxStrDigits then Some(DigitsValue(s)) else None
  {
    assert IsDigit(s[|s| - 1]);
  }

  /** On an accepted field, `int(...)` fails exactly when the field holds a '.'
      or has more digits than CPython converts, and when it succeeds it agrees
      with `float(...)`. */
  lemma {:induction false} IntOfAccepted(s: string)
    requires Matches(s)
    ensures ToInt(s).None? <==> '.' in s || |IntText(s)| > MaxStrDigits
    ensures ToInt(s).Some? ==> DecimalValue(s) == ToInt(s).value as real
  {
    AcceptedShape(s);
    var e := BodyEnd(s).value;
    var j := DigitRun(s, 0);
    var t := IntText(s);
    if '.' in s {
      var i :| 0 <= i < |s| && s[i] == '.';
      assert t[i] == '.';
    } else {
      assert j == e;
      assert s[..j] == t;
    }
  }

  /** A field of more than MaxStrDigits digits passes the pattern, yet
      `int(...)` of it fails. */
  lemma {:induction false} TooLongForInt(s: string)
    requires |s| > MaxStrDigits && AllDigits(s)
    ensures Matches(s) && ToInt(s).None?
  {
    MatchesIff(s);
    DigitsConvert(s);
  }

  /** "12.5" is accepted by the validator, yet `int("12.5")` fails. */
  lemma DecimalPassesButIsNoInt()
    ensures Matches("12.5") && ToInt("12.5") == None
  {
    IntOfAccepted("12.5");
    assert "12.5"[2] == '.';
  }
}
