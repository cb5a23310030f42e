/** The few JavaScript string and number conversions the ledger relies on, on integers:
    `Number.prototype.toString`, `String.prototype.padStart`, `String.prototype.split(sep)[1]`,
    `parseInt` and `Number(string)`. JavaScript's `NaN` (and `undefined`) is `None`. */
module JsText {
  import opened Wrappers

  predicate IsDigit(c: char) { '0' <= c <= '9' }

  predicate AllDigits(s: string) { forall i :: 0 <= i < |s| ==> IsDigit(s[i]) }

  /** A digit of radix 16 (`hex`) or radix 10. */
  predicate IsRadixDigit(c: char, hex: bool)
  {
    IsDigit(c) || (hex && ('a' <= c <= 'f' || 'A' <= c <= 'F'))
  }

  /** The value of a digit of the radix (0 for any other character). */
  function RadixDigitValue(c: char, hex: bool): nat
  {
    if IsDigit(c) then c as int - '0' as int
    else if hex && 'a' <= c <= 'f' then c as int - 'a' as int + 10
    else if hex && 'A' <= c <= 'F' then c as int - 'A' as int + 10
    else 0
  }

  /** The value of a string of digits of the radix, read left to right; leading zeros allowed. */
  function RadixValue(s: string, hex: bool): nat
  {
    if s == [] then 0
    else RadixValue(s[..|s| - 1], hex) * (if hex then 16 else 10) + RadixDigitValue(s[|s| - 1], hex)
  }

  function DigitChar(d: nat): (c: char)
    requires d < 10
    ensures IsDigit(c) && RadixDigitValue(c, false) == d
  {
    ('0' as int + d) as char
  }

  /** Decimal text of a natural number, without leading zeros. */
  function NatToString(n: nat): (s: string)
    ensures |s| >= 1 && AllDigits(s)
    ensures |s| > 1 ==> s[0] != '0'
  {
    if n < 10 then [DigitChar(n)] else NatToString(n / 10) + [DigitChar(n % 10)]
  }

  /** `Number.prototype.toString()` on an integer, with `"NaN"` for `NaN`. */
  function NumberToString(x: Option<int>): string
  {
    match x
    case None => "NaN"
    case Some(n) => if n < 0 then "-" + NatToString(-n) else NatToString(n)
  }

  /** `s.padStart(width, fill)`: fills on the left up to `width` characters and never shortens
      or cuts `s`. */
  function PadStart(s: string, width: nat, fill: char): (r: string)
    ensures |r| == if |s| < width then width else |s|
    ensures r == seq(|r| - |s|, _ => fill) + s
  {
    if |s| < width then seq(width - |s|, _ => fill) + s else s
  }

  /** True when `sep` occurs in `s` starting at index `k`. */
  predicate OccursAt(s: string, sep: string, k: nat)
  {
    k + |sep| <= |s| && s[k..k + |sep|] == sep
  }

  /** The first index at or after `from` where `sep` occurs in `s` (`String.prototype.indexOf`). */
  function FindFrom(s: string, sep: string, from: nat): (r: Option<nat>)
    requires |sep| > 0
    ensures r.Some? ==> from <= r.value && r.value + |sep| <= |s|
    decreases |s| - from
  {
    if from + |sep| > |s| then None
    else if s[from..from + |sep|] == sep then Some(from)
    else FindFrom(s, sep, from + 1)
  }

  /** `s.split(sep)[1]`: the piece between the first and the second occurrence of `sep`
      (or the end of `s`); `undefined` when `sep` does not occur. */
  function SecondPiece(s: string, sep: string): Option<string>
    requires |sep| > 0
  {
    match FindFrom(s, sep, 0)
    case None => None
    case Some(i) =>
      var start := i + |sep|;
      match FindFrom(s, sep, start)
      case None => Some(s[start..])
      case Some(j) => Some(s[start..j])
  }

  /** The white space `parseInt` skips before the number. */
  predicate IsWhiteSpace(c: char)
  {
    c == ' ' || c == '\t' || c == '\n' || c == '\r' || c == '\U{000B}' || c == '\U{000C}'
    || c == '\U{00A0}' || c == '\U{2028}' || c == '\U{2029}' || c == '\U{FEFF}'
  }

  function TrimStart(s: string): string
  {
    if s != [] && IsWhiteSpace(s[0]) then TrimStart(s[1..]) else s
  }

  /** The longest prefix of `s` made of digits of the radix. */
  function RadixPrefix(s: string, hex: bool): string
  {
    if s != [] && IsRadixDigit(s[0], hex) then [s[0]] + RadixPrefix(s[1..], hex) else []
  }

  /** The unsigned part of `parseInt`: an optional `0x`/`0X` prefix selects radix 16, then the
      longest run of digits of the radix is read; `NaN` (`None`) when there is none. */
  function ParseMagnitude(u: string): Option<nat>
  {
    var hex := |u| >= 2 && u[0] == '0' && (u[1] == 'x' || u[1] == 'X');
    var digits := RadixPrefix(if hex then u[2..] else u, hex);
    if digits == [] then None else Some(RadixValue(digits, hex))
  }

  /** `parseInt(x)` with no radix, for `x` a string or `undefined` (`None`): skips leading white
      space, reads an optional sign and then the magnitude; trailing text is ignored. */
  function ParseInt(x: Option<string>): Option<int>
  {
    match x
    case None => None
    case Some(s) =>
      var t := TrimStart(s);
      var negative := t != [] && t[0] == '-';
      var rest := if t != [] && (t[0] == '-' || t[0] == '+') then t[1..] else t;
      match ParseMagnitude(rest)
      case None => None
      case Some(m) => Some(if negative then -(m as int) else m as int)
  }

  /** The number-input strings the model reads: empty, or an optional sign followed by
      decimal digits. Text with a decimal point or an exponent is not among them, even where
      `Number` reads it as a whole number (`5.0`, `1e3`). */
  predicate IsIntegerNumeral(s: string)
  {
    s == [] || (|s| > 0 && AllDigits(s)) || ((s[0] == '-' || s[0] == '+') && |s| > 1 && AllDigits(s[1..]))
  }

  /** `Number(s)` on such a string; the empty string converts to 0. */
  function ToNumber(s: string): int
    requires IsIntegerNumeral(s)
  {
    if s == [] then 0
    else if s[0] == '-' then -(RadixValue(s[1..], false) as int)
    else if s[0] == '+' then RadixValue(s[1..], false)
    else RadixValue(s, false)
  }

  // ---- facts about the string functions ----

  /** `FindFrom` finds the first occurrence at or after `from`. */
  lemma {:induction false} FindFromFirst(s: string, sep: string, from: nat, k: nat)
    requires |sep| > 0 && from <= k && OccursAt(s, sep, k)
    requires forall j :: from <= j < k ==> !OccursAt(s, sep, j)
    ensures FindFrom(s, sep, from) == Some(k)
    decreases k - from
  {
    if from < k {
      assert !OccursAt(s, sep, from);
      FindFromFirst(s, sep, from + 1, k);
    }
  }

  /** `FindFrom` reports no occurrence when there is none at or after `from`. */
  lemma {:induction false} FindFromNone(s: string, sep: string, from: nat)
    requires |sep| > 0
    requires forall j :: from <= j ==> !OccursAt(s, sep, j)
    ensures FindFrom(s, sep, from) == None
    decreases |s| - from
  {
    if from + |sep| <= |s| {
      assert !OccursAt(s, sep, from);
      FindFromNone(s, sep, from + 1);
    }
  }

  /** An occurrence of `sep` at `k` starts with the first character of `sep`. */
  lemma OccursAtStartsWith(s: string, sep: string, k: nat)
    requires |sep| > 0
    ensures OccursAt(s, sep, k) ==> k < |s| && s[k] == sep[0]
  {
    if OccursAt(s, sep, k) {
      assert s[k..k + |sep|][0] == s[k];
    }
  }

  // ---- round trips ----

  lemma {:induction false} RadixValueOfNatToString(n: nat)
    ensures RadixValue(NatToString(n), false) == n
  {
    var s := NatToString(n);
    if n >= 10 {
      RadixValueOfNatToString(n / 10);
      assert s[..|s| - 1] == NatToString(n / 10);
    }
  }

  /** Leading zeros do not change the value of a digit string. */
  lemma {:induction false} RadixValueIgnoresLeadingZeros(z: string, s: string)
    requires forall i :: 0 <= i < |z| ==> z[i] == '0'
    ensures RadixValue(z + s, false) == RadixValue(s, false)
    decreases |s|, |z|
  {
    if s == [] {
      assert z + s == z;
      if z != [] {
        assert z[..|z| - 1] + [] == z[..|z| - 1];
        RadixValueIgnoresLeadingZeros(z[..|z| - 1], []);
      }
    } else {
      assert (z + s)[..|z + s| - 1] == z + s[..|s| - 1];
      RadixValueIgnoresLeadingZeros(z, s[..|s| - 1]);
    }
  }

  /** The longest digit prefix of an all-digit string is the whole string. */
  lemma {:induction false} RadixPrefixOfDigits(s: string)
    requires AllDigits(s)
    ensures RadixPrefix(s, false) == s
  {
    if s != [] {
      RadixPrefixOfDigits(s[1..]);
    }
  }

  /** A non-empty decimal digit string is read in full, in radix 10. */
  lemma ParseMagnitudeOfDigits(p: string)
    requires p != [] && AllDigits(p)
    ensures ParseMagnitude(p) == Some(RadixValue(p, false))
  {
    assert !(|p| >= 2 && p[0] == '0' && (p[1] == 'x' || p[1] == 'X')) by {
      if |p| >= 2 { assert IsDigit(p[1]); }
    }
    RadixPrefixOfDigits(p);
  }

  /** `parseInt` of a non-empty digit string is its decimal value. */
  lemma ParseIntOfDigits(p: string)
    requires p != [] && AllDigits(p)
    ensures ParseInt(Some(p)) == Some(RadixValue(p, false) as int)
  {
    assert IsDigit(p[0]);
    assert TrimStart(p) == p;
    ParseMagnitudeOfDigits(p);
  }

  /** `parseInt` of a minus sign followed by a non-empty digit string is the negated value. */
  lemma ParseIntOfNegatedDigits(m: string)
    requires m != [] && AllDigits(m)
    ensures ParseInt(Some("-" + m)) == Some(-(RadixValue(m, false) as int))
  {
    var p := "-" + m;
    assert p[0] == '-';
    assert TrimStart(p) == p;
    assert p[1..] == m;
    ParseMagnitudeOfDigits(m);
  }

  /** Reading back the text of an integer, zero-padded to two places, gives the integer:
      `parseInt(String(n).padStart(2, '0')) == n`. (For a wider pad a negative number would
      get zeros in front of its sign, so the width is fixed at the two the ledger uses.) */
  lemma ParseIntOfPaddedNumber(n: int)
    ensures ParseInt(Some(PadStart(NumberToString(Some(n)), 2, '0'))) == Some(n)
  {
    if n < 0 {
      ParseIntOfPaddedNegative(n);
    } else {
      PaddedNatValue(n);
      var p := PadStart(NatToString(n), 2, '0');
      assert PadStart(NumberToString(Some(n)), 2, '0') == p;
      ParseIntOfDigits(p);
    }
  }

  lemma ParseIntOfPaddedNegative(n: int)
    requires n < 0
    ensures ParseInt(Some(PadStart(NumberToString(Some(n)), 2, '0'))) == Some(n)
  {
    var k: nat := -n;
    var m := NatToString(k);
    PaddedNegativeText(n, k, m);
    RadixValueOfNatToString(k);
    ParseIntOfNegatedDigits(m);
  }

  /** A negative number's text is already two characters long, so padding leaves it alone. */
  lemma PaddedNegativeText(n: int, k: nat, m: string)
    requires n < 0 && k == -n && m == NatToString(k)
    ensures PadStart(NumberToString(Some(n)), 2, '0') == "-" + m
  {
  }

  /** A natural number's text, zero-padded, is still a digit string with the same value. */
  lemma PaddedNatValue(n: nat)
    ensures AllDigits(PadStart(NatToString(n), 2, '0'))
    ensures RadixValue(PadStart(NatToString(n), 2, '0'), false) == n
  {
    var m := NatToString(n);
    var p := PadStart(m, 2, '0');
    var z := p[..|p| - |m|];
    assert p == z + m;
    RadixValueIgnoresLeadingZeros(z, m);
    RadixValueOfNatToString(n);
  }

  /** `Number` reads back what `toString` wrote: `Number(String(n)) == n`. */
  lemma ToNumberOfNumberToString(n: int)
    ensures IsIntegerNumeral(NumberToString(Some(n)))
    ensures ToNumber(NumberToString(Some(n))) == n
  {
    if n < 0 {
      assert NumberToString(Some(n))[1..] == NatToString(-n);
      RadixValueOfNatToString(-n);
    } else {
      RadixValueOfNatToString(n);
    }
  }
}
