/** Decimal text as the CSV import and export meet it: JavaScript's
    `Number(text)` on integer numerals, and the decimal rendering of the
    counters and story points. */
module Decimal {
  import opened Wrappers

  predicate IsDigit(c: char) {
    '0' <= c <= '9'
  }

  predicate AllDigits(s: string) {
    forall i :: 0 <= i < |s| ==> IsDigit(s[i])
  }

  function DigitValue(c: char): nat
    requires IsDigit(c)
  {
    (c as int - '0' as int) as nat
  }

  function DigitChar(d: nat): (c: char)
    requires d < 10
    ensures IsDigit(c) && DigitValue(c) == d
  {
    ('0' as int + d) as char
  }

  /** The value of a run of decimal digits. */
  function DigitsValue(s: string): nat
    requires AllDigits(s)
    decreases |s|
  {
    if s == [] then 0 else DigitsValue(s[..|s| - 1]) * 10 + DigitValue(s[|s| - 1])
  }

  /** The shortest decimal numeral of `n`. */
  function NatToString(n: nat): (s: string)
    ensures |s| >= 1 && AllDigits(s)
    decreases n
  {
    if n < 10 then [DigitChar(n)] else NatToString(n / 10) + [DigitChar(n % 10)]
  }

  /** `String(n)` for an integer. */
  function IntToString(i: int): (s: string)
    ensures |s| >= 1
    ensures s[0] == '-' <==> i < 0
  {
    if i < 0 then "-" + NatToString(-i) else NatToString(i)
  }

  /** Reading back a rendered number gives the number. */
  lemma {:induction false} NatToStringRoundTrip(n: nat)
    ensures DigitsValue(NatToString(n)) == n
    decreases n
  {
    if n >= 10 {
      NatToStringRoundTrip(n / 10);
      var s := NatToString(n);
      assert s[..|s| - 1] == NatToString(n / 10);
    }
  }

  /** Distinct numbers render to distinct numerals. */
  lemma NatToStringInjective(m: nat, n: nat)
    ensures NatToString(m) == NatToString(n) ==> m == n
  {
    NatToStringRoundTrip(m);
    NatToStringRoundTrip(n);
  }

  /** The white space `Number` skips at both ends (the ASCII part of it). */
  predicate IsSpace(c: char) {
    c == ' ' || c == '\t' || c == '\n' || c == '\r' || c as int == 11 || c as int == 12
  }

  function TrimStart(s: string): (r: string)
    ensures |r| <= |s| && r == s[|s| - |r|..]
    ensures r != [] ==> !IsSpace(r[0])
    ensures forall k :: 0 <= k < |s| - |r| ==> IsSpace(s[k])
  {
    if s != [] && IsSpace(s[0]) then TrimStart(s[1..]) else s
  }

  function TrimEnd(s: string): (r: string)
    ensures |r| <= |s| && r == s[..|r|]
    ensures r != [] ==> !IsSpace(r[|r| - 1])
    ensures forall k :: |r| <= k < |s| ==> IsSpace(s[k])
  {
    if s != [] && IsSpace(s[|s| - 1]) then TrimEnd(s[..|s| - 1]) else s
  }

  function Trim(s: string): (r: string)
    ensures |r| <= |s|
    ensures r != [] ==> !IsSpace(r[0]) && !IsSpace(r[|r| - 1])
  {
    TrimEnd(TrimStart(s))
  }

  /** Only white space is cut, from both ends: the trim is the slice
      `s[i..][..|r|]`, and everything before and after it is white space. */
  lemma TrimSpec(s: string)
    ensures var r := Trim(s);
      exists i ::
        && 0 <= i <= |s| - |r| && r == s[i..][..|r|]
        && (forall k :: 0 <= k < i ==> IsSpace(s[k]))
        && (forall k :: i + |r| <= k < |s| ==> IsSpace(s[k]))
  {
    var t := TrimStart(s);
    var r := TrimEnd(t);
    var i := |s| - |t|;
    assert t == s[i..];
    forall k | i + |r| <= k < |s| ensures IsSpace(s[k]) {
      assert s[k] == t[k - i];
    }
  }

  /** A trimmed numeral: blank is 0, an optional sign precedes one or more
      digits, anything else is NaN (None). */
  function ParseNumeral(t: string): (r: Option<int>)
    ensures t != [] && AllDigits(t) ==> r == Some(DigitsValue(t))
    ensures r.Some? && t != [] ==> IsDigit(t[|t| - 1])
  {
    if t == [] then Some(0)
    else if (t[0] == '-' || t[0] == '+') && |t| > 1 && AllDigits(t[1..]) then
      Some(if t[0] == '-' then -(DigitsValue(t[1..]) as int) else DigitsValue(t[1..]))
    else if AllDigits(t) then Some(DigitsValue(t))
    else None
  }

  /** `Number(text)` on an integer numeral: surrounding white space is
      ignored; undefined is NaN. */
  function NumberOf(text: Option<string>): (r: Option<int>)
    ensures text.None? ==> r.None?
  {
    match text
    case None => None
    case Some(raw) => ParseNumeral(Trim(raw))
  }

  /** `Number(text) || 0`: NaN and zero both give 0. */
  function NumberOrZero(text: Option<string>): int {
    match NumberOf(text)
    case None => 0
    case Some(v) => v
  }

  /** Text that neither starts nor ends with white space is its own trim. */
  lemma TrimKeeps(s: string)
    requires s != [] ==> !IsSpace(s[0]) && !IsSpace(s[|s| - 1])
    ensures Trim(s) == s
  {
  }

  /** A numeral without sign reads as its value. */
  lemma NumberOfUnsigned(n: nat)
    ensures NumberOf(Some(NatToString(n))) == Some(n)
  {
    var s := NatToString(n);
    NatToStringRoundTrip(n);
    DigitsKeep(s);
    ParseDigits(s);
  }

  /** A run of digits is its own trim. */
  lemma DigitsKeep(s: string)
    requires s != [] && AllDigits(s)
    ensures Trim(s) == s
  {
    assert IsDigit(s[0]) && IsDigit(s[|s| - 1]);
    TrimKeeps(s);
  }

  /** A run of digits reads as its value. */
  lemma ParseDigits(s: string)
    requires s != [] && AllDigits(s)
    ensures ParseNumeral(s) == Some(DigitsValue(s))
  {
    assert IsDigit(s[0]);
  }

  lemma ParseNegative(n: nat)
    ensures ParseNumeral("-" + NatToString(n)) == Some(-(n as int))
  {
    var digits := NatToString(n);
    var s := "-" + digits;
    assert s[1..] == digits;
    NatToStringRoundTrip(n);
  }

  lemma TrimNegative(n: nat)
    ensures Trim("-" + NatToString(n)) == "-" + NatToString(n)
  {
    var digits := NatToString(n);
    var s := "-" + digits;
    assert s[|s| - 1] == digits[|digits| - 1];
    assert IsDigit(digits[|digits| - 1]);
    TrimKeeps(s);
  }

  /** A numeral with a minus sign reads as the negated value. */
  lemma NumberOfNegative(n: nat)
    ensures NumberOf(Some("-" + NatToString(n))) == Some(-(n as int))
  {
    ParseNegative(n);
    TrimNegative(n);
  }

  /** Reading back a rendered integer gives the integer: story points
      survive an export followed by an import. */
  lemma NumberOfIntToString(i: int)
    ensures NumberOf(Some(IntToString(i))) == Some(i)
  {
    if i < 0 {
      var n: nat := -i;
      assert IntToString(i) == "-" + NatToString(n);
      NumberOfNegative(n);
    } else {
      var n: nat := i;
      assert IntToString(i) == NatToString(n);
      NumberOfUnsigned(n);
    }
  }

  /** `Number(String(i)) || 0` is `i` again. */
  lemma NumberOrZeroIntToString(i: int)
    ensures NumberOrZero(Some(IntToString(i))) == i
  {
    NumberOfIntToString(i);
  }
}
