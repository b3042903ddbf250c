/** The two text steps the XML statistics apply to every extracted field:
    `str.split()[0]` (first whitespace-separated token) and `float(token)`
    (decimal literal to number). */
module TextNumber {
  import opened Wrappers

  /** The characters Python's `str.split()` with no argument separates on. */
  predicate IsSpace(c: char) {
    || c == ' '
    || '\t' <= c <= '\r'
    || '\U{1C}' <= c <= '\U{1F}'
    || c == '\U{85}'
    || c == '\U{A0}'
    || c == '\U{1680}'
    || '\U{2000}' <= c <= '\U{200A}'
    || c == '\U{2028}'
    || c == '\U{2029}'
    || c == '\U{202F}'
    || c == '\U{205F}'
    || c == '\U{3000}'
  }

  ghost predicate AllSpace(s: string) {
    forall i :: 0 <= i < |s| ==> IsSpace(s[i])
  }

  ghost predicate NoSpace(s: string) {
    forall i :: 0 <= i < |s| ==> !IsSpace(s[i])
  }

  /** The longest prefix of `s` without a space. */
  function Word(s: string): (w: string)
    ensures w <= s
    ensures NoSpace(w)
    ensures |w| == |s| || IsSpace(s[|w|])
  {
    if s == [] || IsSpace(s[0]) then [] else [s[0]] + Word(s[1..])
  }

  /** `s.split()[0]`, or None where Python raises IndexError because `s`
      holds nothing but spaces. */
  function FirstToken(s: string): (r: Option<string>)
    ensures r.None? <==> AllSpace(s)
    ensures r.Some? ==> r.value != [] && NoSpace(r.value)
  {
    if s == [] then None
    else if IsSpace(s[0]) then
      var r := FirstToken(s[1..]);
      assert AllSpace(s) <==> AllSpace(s[1..]) by {
        assert forall i :: 0 < i < |s| ==> s[i] == s[1..][i - 1];
      }
      r
    else Some(Word(s))
  }

  /** Any leading spaces, then the token, then nothing or a space: the token is
      exactly what `split()[0]` returns. */
  lemma {:induction false} FirstTokenOf(lead: string, t: string, rest: string)
    requires AllSpace(lead)
    requires t != [] && NoSpace(t)
    requires rest == [] || IsSpace(rest[0])
    ensures FirstToken(lead + t + rest) == Some(t)
  {
    var s := lead + t + rest;
    if lead == [] {
      assert s == t + rest;
      WordOf(t, rest);
    } else {
      assert s[0] == lead[0];
      assert s[1..] == lead[1..] + t + rest;
      FirstTokenOf(lead[1..], t, rest);
    }
  }

  lemma {:induction false} WordOf(t: string, rest: string)
    requires NoSpace(t)
    requires rest == [] || IsSpace(rest[0])
    ensures Word(t + rest) == t
  {
    if t != [] {
      assert (t + rest)[1..] == t[1..] + rest;
      WordOf(t[1..], rest);
    }
  }

  predicate IsDigit(c: char) {
    '0' <= c <= '9'
  }

  /** The characters a decimal literal accepted by `ParseNumber` is made of. */
  predicate IsNumberChar(c: char) {
    IsDigit(c) || c == '+' || c == '-' || c == '.' || c == 'e' || c == 'E'
  }

  /** Number of leading decimal digits of `s`. */
  function DigitRun(s: string): (n: nat)
    ensures n <= |s|
    ensures forall i :: 0 <= i < n ==> IsDigit(s[i])
    ensures n < |s| ==> !IsDigit(s[n])
  {
    if s == [] || !IsDigit(s[0]) then 0 else 1 + DigitRun(s[1..])
  }

  /** The value of a string of decimal digits, read left to right. */
  function DigitsValue(s: string): nat
    requires forall i :: 0 <= i < |s| ==> IsDigit(s[i])
  {
    if s == [] then 0
    else
      assert IsDigit(s[|s| - 1]);
      DigitsValue(s[..|s| - 1]) * 10 + (s[|s| - 1] as int - '0' as int)
  }

  function Pow10(n: nat): (p: nat)
    ensures p >= 1
  {
    if n == 0 then 1 else 10 * Pow10(n - 1)
  }

  /** Multiplication by ten to the power `e`, for either sign of `e`. */
  function Scale(e: int): (r: real)
    ensures r > 0.0
  {
    if e >= 0 then Pow10(e) as real else 1.0 / Pow10(-e) as real
  }

  /** An optional exponent part `[eE][+-]digits`; the empty text means 0. */
  function ParseExponent(s: string): (r: Option<int>)
    ensures r.Some? ==> forall i :: 0 <= i < |s| ==> IsNumberChar(s[i])
  {
    if s == [] then Some(0)
    else if s[0] != 'e' && s[0] != 'E' then None
    else
      var signed := s[1..];
      var neg := |signed| > 0 && signed[0] == '-';
      var digits := if |signed| > 0 && (signed[0] == '+' || signed[0] == '-') then signed[1..] else signed;
      if digits == [] || DigitRun(digits) != |digits| then None
      else
        assert forall i :: 1 <= i < |s| ==> s[i] == signed[i - 1];
        assert forall i :: 0 <= i < |signed| ==> IsNumberChar(signed[i]) by {
          if |signed| > 0 && (signed[0] == '+' || signed[0] == '-') {
            assert forall i :: 1 <= i < |signed| ==> signed[i] == digits[i - 1];
          }
        }
        var v: int := DigitsValue(digits);
        Some(if neg then -v else v)
  }

  /** `float(t)` for decimal literals: an optional sign, digits with an
      optional fraction (at least one digit in all), an optional exponent.
      Any other text is None, where Python raises ValueError. */
  function ParseNumber(t: string): (r: Option<real>)
    ensures r.Some? ==> forall i :: 0 <= i < |t| ==> IsNumberChar(t[i])
  {
    var neg := |t| > 0 && t[0] == '-';
    var signed := |t| > 0 && (t[0] == '+' || t[0] == '-');
    var u := if signed then t[1..] else t;
    var ni := DigitRun(u);
    var afterInt := u[ni..];
    var hasDot := |afterInt| > 0 && afterInt[0] == '.';
    var fracText := if hasDot then afterInt[1..] else [];
    var nf := DigitRun(fracText);
    var expText := if hasDot then fracText[nf..] else afterInt;
    if ni == 0 && nf == 0 then None
    else match ParseExponent(expText)
      case None => None
      case Some(e) =>
        NumberCharsOf(t, signed, u, ni, hasDot, fracText, nf, expText);
        var mantissa := DigitsValue(u[..ni]) as real + DigitsValue(fracText[..nf]) as real / Pow10(nf) as real;
        var magnitude := mantissa * Scale(e);
        Some(if neg then -magnitude else magnitude)
  }

  /** The pieces `ParseNumber` cuts a literal into cover it, so a literal that
      parses is made of number characters only. */
  lemma NumberCharsOf(t: string, signed: bool, u: string, ni: nat, hasDot: bool,
                      fracText: string, nf: nat, expText: string)
    requires signed ==> |t| > 0 && (t[0] == '+' || t[0] == '-')
    requires u == if signed then t[1..] else t
    requires ni <= |u| && forall i :: 0 <= i < ni ==> IsDigit(u[i])
    requires hasDot ==> |u| > ni && u[ni] == '.'
    requires fracText == if hasDot then u[ni + 1..] else []
    requires nf <= |fracText| && forall i :: 0 <= i < nf ==> IsDigit(fracText[i])
    requires expText == if hasDot then fracText[nf..] else u[ni..]
    requires forall i :: 0 <= i < |expText| ==> IsNumberChar(expText[i])
    ensures forall i :: 0 <= i < |t| ==> IsNumberChar(t[i])
  {
    assert forall i :: 0 <= i < |u| ==> IsNumberChar(u[i]) by {
      forall i | 0 <= i < |u|
        ensures IsNumberChar(u[i])
      {
        if i < ni {
        } else if !hasDot {
          assert u[i] == expText[i - ni];
        } else if i == ni {
        } else if i < ni + 1 + nf {
          assert u[i] == fracText[i - ni - 1];
        } else {
          assert u[i] == expText[i - ni - 1 - nf];
        }
      }
    }
    if signed {
      assert forall i :: 1 <= i < |t| ==> t[i] == u[i - 1];
    }
  }

  /** The decimal digits of `n`, without leading zeros: Python's `str(n)`. */
  function NatText(n: nat): (s: string)
    ensures s != []
    ensures forall i :: 0 <= i < |s| ==> IsDigit(s[i])
  {
    var d := ['0' + (n % 10) as char];
    if n < 10 then d else NatText(n / 10) + d
  }

  lemma {:induction false} NatTextValue(n: nat)
    ensures DigitsValue(NatText(n)) == n
  {
    var s := NatText(n);
    if n >= 10 {
      assert s[..|s| - 1] == NatText(n / 10);
      NatTextValue(n / 10);
    }
  }

  /** Python's `float(str(n))` gives back `n`. */
  lemma ParseNatText(n: nat)
    ensures ParseNumber(NatText(n)) == Some(n as real)
  {
    var s := NatText(n);
    NatTextValue(n);
    DigitRunAll(s);
    assert s[..|s|] == s;
    assert s[|s|..] == [];
    assert ParseExponent([]) == Some(0);
  }

  /** Python's `float("-" + str(n))` gives back `-n`. */
  lemma ParseNegatedNatText(n: nat)
    ensures ParseNumber("-" + NatText(n)) == Some(-(n as real))
  {
    var s := NatText(n);
    var m := "-" + s;
    assert m[1..] == s;
    NatTextValue(n);
    DigitRunAll(s);
    assert s[..|s|] == s;
    assert s[|s|..] == [];
    assert ParseExponent([]) == Some(0);
  }

  lemma {:induction false} DigitRunAll(s: string)
    requires forall i :: 0 <= i < |s| ==> IsDigit(s[i])
    ensures DigitRun(s) == |s|
  {
    if s != [] {
      DigitRunAll(s[1..]);
    }
  }
}
