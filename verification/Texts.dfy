/** The text operations of the parser: trimming, splitting and reading an unsigned number. */
module Texts {
  import opened Results

  // The Unicode White_Space property, which trimming removes.
  predicate IsSpace(c: char) {
    var n := c as int;
    9 <= n <= 13 || n == 32 || n == 0x85 || n == 0xA0 || n == 0x1680 || 0x2000 <= n <= 0x200A
    || n == 0x2028 || n == 0x2029 || n == 0x202F || n == 0x205F || n == 0x3000
  }

  function Trim(s: string): string {
    if |s| == 0 then s
    else if IsSpace(s[0]) then Trim(s[1..])
    else if IsSpace(s[|s| - 1]) then Trim(s[..|s| - 1])
    else s
  }

  lemma TrimNothing(s: string)
    requires |s| > 0 && !IsSpace(s[0]) && !IsSpace(s[|s| - 1])
    ensures Trim(s) == s
  {
  }

  // The first position of `c`, or the length when there is none.
  function Find(s: string, c: char): (i: nat)
    ensures i <= |s| && c !in s[..i]
    ensures i < |s| ==> s[i] == c
  {
    if s == "" || s[0] == c then 0
    else
      var i := 1 + Find(s[1..], c);
      assert s[..i] == [s[0]] + s[1..][..i - 1];
      i
  }

  lemma {:induction false} FindAfter(a: string, c: char, b: string)
    requires c !in a
    ensures Find(a + [c] + b, c) == |a|
  {
    var s := a + [c] + b;
    if a != "" {
      assert s[1..] == a[1..] + [c] + b;
      FindAfter(a[1..], c, b);
    }
  }

  lemma {:induction false} FindNone(a: string, c: char)
    requires c !in a
    ensures Find(a, c) == |a|
  {
    if a != "" {
      FindNone(a[1..], c);
    }
  }

  function Split(s: string, c: char): (parts: seq<string>)
    ensures |parts| > 0
    decreases |s|
  {
    var i := Find(s, c);
    if i == |s| then [s] else [s[..i]] + Split(s[i + 1..], c)
  }

  lemma SplitStep(a: string, c: char, b: string)
    requires c !in a
    ensures Split(a + [c] + b, c) == [a] + Split(b, c)
  {
    var s := a + [c] + b;
    FindAfter(a, c, b);
    assert s[..|a|] == a && s[|a| + 1..] == b;
  }

  lemma SplitNone(a: string, c: char)
    requires c !in a
    ensures Split(a, c) == [a]
  {
    FindNone(a, c);
  }

  predicate IsDigit(c: char) {
    '0' <= c <= '9'
  }

  function DigitValue(c: char): nat
    requires IsDigit(c)
  {
    c as int - 48
  }

  predicate AllDigits(s: string) {
    forall i :: 0 <= i < |s| ==> IsDigit(s[i])
  }

  function DecimalValue(digits: string): nat
    requires AllDigits(digits)
  {
    if digits == "" then 0
    else 10 * DecimalValue(digits[..|digits| - 1]) + DigitValue(digits[|digits| - 1])
  }

  // A 32-bit unsigned number: one optional plus sign, at least one digit, no overflow.
  function ParseU32(s: string): (r: Option<nat>)
    ensures r.Some? ==> r.value < 0x1_0000_0000
  {
    var digits := if |s| > 0 && s[0] == '+' then s[1..] else s;
    if digits != "" && AllDigits(digits) then
      var n := DecimalValue(digits);
      if n < 0x1_0000_0000 then Some(n) else None
    else None
  }

  lemma DecimalStep(digits: string, c: char)
    requires IsDigit(c) && AllDigits(digits)
    ensures DecimalValue(digits + [c]) == 10 * DecimalValue(digits) + (c as int - '0' as int)
  {
    assert (digits + [c])[..|digits|] == digits;
  }

  // Digits that fit 32 bits are a number, with or without a plus sign.
  lemma NumbersAre(digits: string)
    requires forall i :: 0 <= i < |digits| ==> '0' <= digits[i] <= '9'
    ensures var n := if digits != "" && DecimalValue(digits) <= 4294967295 then Some(DecimalValue(digits)) else None;
            ParseU32(digits) == n && ParseU32("+" + digits) == n
  {
    assert forall i :: 0 <= i < |digits| ==> IsDigit(digits[i]);
    var signed := "+" + digits;
    assert signed[0] == '+' && signed[1..] == digits;
    if digits != "" {
      assert IsDigit(digits[0]) && digits[0] != '+';
    }
  }

  // Nothing else is.
  lemma NotANumber(s: string, i: nat)
    requires i < |s| && !('0' <= s[i] <= '9') && (i > 0 || s[i] != '+')
    ensures ParseU32(s).None?
  {
    var digits := if s[0] == '+' then s[1..] else s;
    assert !IsDigit(digits[if s[0] == '+' then i - 1 else i]);
    assert !AllDigits(digits);
  }
}
