/**
 * Decimal numerals and the few string operations the components use:
 * Python's `str(n)` / JavaScript's `n.toString()` for naturals, Python's
 * `int(s)` on a string of digits, `padStart`, `endswith`, and the pieces of
 * `str.split` that the code indexes.
 */
module Text {
  import opened Wrappers

  predicate IsDigit(c: char) { '0' <= c <= '9' }

  predicate AllDigits(s: string) { forall i :: 0 <= i < |s| ==> IsDigit(s[i]) }

  function DigitChar(d: nat): (c: char)
    requires d < 10
    ensures IsDigit(c)
  {
    (('0' as int) + d) as char
  }

  /** The shortest decimal numeral of `n`, as `str(n)` writes it. */
  function NatToString(n: nat): (s: string)
    ensures |s| > 0 && AllDigits(s)
    ensures |s| > 1 ==> s[0] != '0'
  {
    if n < 10 then [DigitChar(n)] else NatToString(n / 10) + [DigitChar(n % 10)]
  }

  /** The value of a string of decimal digits, leading zeros allowed. */
  function DigitsValue(s: string): nat
    requires AllDigits(s)
  {
    if s == [] then 0 else DigitsValue(s[..|s| - 1]) * 10 + (s[|s| - 1] as int - '0' as int)
  }

  /** `int(s)` for a non-empty string of ASCII digits; anything else fails. */
  function ParseNat(s: string): Option<nat>
  {
    if |s| > 0 && AllDigits(s) then Some(DigitsValue(s)) else None
  }

  /** Reading back a numeral gives the number that was written. */
  lemma {:induction false} ParseNatToString(n: nat)
    ensures ParseNat(NatToString(n)) == Some(n)
    ensures DigitsValue(NatToString(n)) == n
  {
    var s := NatToString(n);
    if n >= 10 {
      ParseNatToString(n / 10);
      assert s[..|s| - 1] == NatToString(n / 10);
      assert s[|s| - 1] as int - '0' as int == n % 10;
    } else {
      assert s == [DigitChar(n)] && s[..|s| - 1] == [];
      assert DigitsValue(s) == DigitsValue([]) * 10 + (DigitChar(n) as int - '0' as int);
    }
  }

  /** Leading zeros do not change the value of a numeral. */
  lemma {:induction false} LeadingZero(s: string)
    requires AllDigits(s)
    ensures AllDigits("0" + s) && DigitsValue("0" + s) == DigitsValue(s)
    decreases |s|
  {
    if s != [] {
      LeadingZero(s[..|s| - 1]);
      assert ("0" + s)[..|"0" + s| - 1] == "0" + s[..|s| - 1];
    }
  }

  /** `s.padStart(width, fill)`: fill on the left up to `width` characters. */
  function PadStart(s: string, width: nat, fill: char): (r: string)
    ensures |r| == if |s| >= width then |s| else width
    ensures r[|r| - |s|..] == s
    decreases width - |s|
  {
    if |s| >= width then s else PadStart([fill] + s, width, fill)
  }

  /** Every character `padStart` adds in front of `s` is `fill`. */
  lemma {:induction false} PadStartFills(s: string, width: nat, fill: char)
    ensures forall i :: 0 <= i < |PadStart(s, width, fill)| - |s| ==> PadStart(s, width, fill)[i] == fill
    decreases width - |s|
  {
    if |s| < width {
      var t := [fill] + s;
      PadStartFills(t, width, fill);
      var r := PadStart(t, width, fill);
      assert PadStart(s, width, fill) == r;
      forall i | 0 <= i < |r| - |s| ensures r[i] == fill {
        if i == |r| - |t| {
          assert r[i] == r[|r| - |t|..][0] == t[0];
        }
      }
    }
  }

  /** Zero-padding a numeral keeps its value. */
  lemma {:induction false} PadZerosValue(s: string, width: nat)
    requires AllDigits(s)
    ensures AllDigits(PadStart(s, width, '0'))
    ensures DigitsValue(PadStart(s, width, '0')) == DigitsValue(s)
    decreases width - |s|
  {
    if |s| < width {
      LeadingZero(s);
      assert [('0')] + s == "0" + s;
      PadZerosValue("0" + s, width);
    }
  }

  predicate StartsWith(s: string, prefix: string)
  {
    |prefix| <= |s| && s[..|prefix|] == prefix
  }

  predicate EndsWith(s: string, suffix: string)
  {
    |suffix| <= |s| && s[|s| - |suffix|..] == suffix
  }

  predicate OccursAt(s: string, pattern: string, i: nat)
  {
    i + |pattern| <= |s| && s[i..i + |pattern|] == pattern
  }

  /** The index of the first occurrence of a non-empty `pattern` in `s`. */
  function IndexOf(s: string, pattern: string, from: nat := 0): (r: Option<nat>)
    requires |pattern| > 0
    ensures r.Some? ==> from <= r.value && OccursAt(s, pattern, r.value)
    ensures r.Some? ==> forall j :: from <= j < r.value ==> !OccursAt(s, pattern, j)
    ensures r.None? ==> forall j :: from <= j ==> !OccursAt(s, pattern, j)
    decreases |s| - from
  {
    if from + |pattern| > |s| then None
    else if OccursAt(s, pattern, from) then Some(from)
    else IndexOf(s, pattern, from + 1)
  }

  /**
   * `s.split(sep)[0]`: the prefix of `s` in which no `sep` starts, ending
   * where the first `sep` starts, or all of `s` when there is none.
   */
  function FirstField(s: string, sep: string): (r: string)
    requires |sep| > 0
    ensures StartsWith(s, r)
    ensures forall j :: 0 <= j < |r| ==> !OccursAt(s, sep, j)
    ensures r == s || OccursAt(s, sep, |r|)
    ensures r == s <==> IndexOf(s, sep).None?
  {
    match IndexOf(s, sep)
    case None => s
    case Some(i) => s[..i]
  }

  /**
   * `s.split(sep)[1]`, which fails when `sep` does not occur in `s`: the
   * text after the first `sep`, up to the next one.
   */
  function SecondField(s: string, sep: string): (r: Option<string>)
    requires |sep| > 0
    ensures r.None? <==> IndexOf(s, sep).None?
  {
    match IndexOf(s, sep)
    case None => None
    case Some(i) => Some(FirstField(s[i + |sep|..], sep))
  }

  /**
   * The second field starts right after the separator that ends the first
   * field and runs up to the next separator.
   */
  lemma SecondFieldFollowsFirst(s: string, sep: string)
    requires |sep| > 0
    ensures SecondField(s, sep).Some? ==>
      && OccursAt(s, sep, |FirstField(s, sep)|)
      && SecondField(s, sep).value == FirstField(s[|FirstField(s, sep)| + |sep|..], sep)
  {
    match IndexOf(s, sep)
    case None =>
    case Some(i) =>
      assert FirstField(s, sep) == s[..i];
      assert SecondField(s, sep) == Some(FirstField(s[i + |sep|..], sep));
  }

  /** A field that starts with no part of a separator ends where the separator starts. */
  lemma FirstFieldOfDigits(digits: string, sep: string, rest: string)
    requires |sep| > 0 && AllDigits(digits) && !IsDigit(sep[0])
    ensures FirstField(digits + sep + rest, sep) == digits
  {
    var s := digits + sep + rest;
    assert OccursAt(s, sep, |digits|);
    forall j | 0 <= j < |digits| ensures !OccursAt(s, sep, j) {
      assert s[j] == digits[j];
    }
  }
}
