/**
 The text form of the stored counter: std::to_string writes it, std::stoi reads it back.
 */
module Decimal {
  import opened Options

  function DigitChar(d: int): (c: char)
    requires 0 <= d <= 9
    ensures c as int == '0' as int + d
  {
    ['0', '1', '2', '3', '4', '5', '6', '7', '8', '9'][d]
  }

  predicate IsDigit(c: char) {
    '0' <= c <= '9'
  }

  function DigitValue(c: char): int
    requires IsDigit(c)
  {
    c as int - '0' as int
  }

  /** std::to_string of a non-negative number. */
  function ToString(n: nat): (s: string)
    ensures s != [] && forall k :: 0 <= k < |s| ==> IsDigit(s[k])
  {
    if n < 10 then [DigitChar(n)] else ToString(n / 10) + [DigitChar(n % 10)]
  }

  function Number(s: string): nat
    requires forall k :: 0 <= k < |s| ==> IsDigit(s[k])
  {
    if s == [] then 0 else Number(s[..|s| - 1]) * 10 + DigitValue(s[|s| - 1])
  }

  /** std::isspace in the C locale: a blank, or one of the five controls from tab on. */
  predicate IsSpace(c: char) {
    c == ' ' || 9 <= c as int <= 13
  }

  function SkipSpace(s: string): string {
    if s != [] && IsSpace(s[0]) then SkipSpace(s[1..]) else s
  }

  /** Length of the leading run of digits. */
  function Leading(s: string): (k: nat)
    ensures k <= |s| && (forall j :: 0 <= j < k ==> IsDigit(s[j]))
    ensures k < |s| ==> !IsDigit(s[k])
  {
    if s == [] || !IsDigit(s[0]) then 0 else 1 + Leading(s[1..])
  }

  /** Digits up to the first other character, under a sign; no digits or a value outside int is
      None. */
  function Digits(u: string, negative: bool): Option<int> {
    var k := Leading(u);
    if k == 0 then None else
    var n: int := Number(u[..k]);
    var v := if negative then -n else n;
    if -0x8000_0000 <= v < 0x8000_0000 then Some(v) else None
  }

  function Signed(t: string): Option<int> {
    if t != [] && t[0] in "+-" then Digits(t[1..], t[0] == '-') else Digits(t, false)
  }

  /** std::stoi: spaces are skipped; None stands for the exceptions it throws. */
  function Stoi(s: string): Option<int> {
    Signed(SkipSpace(s))
  }

  lemma {:induction false} NumberOfToString(n: nat)
    ensures Number(ToString(n)) == n
  {
    if n >= 10 {
      var s := ToString(n);
      NumberOfToString(n / 10);
      assert s[..|s| - 1] == ToString(n / 10);
      assert DigitValue(DigitChar(n % 10)) == n % 10;
    }
  }

  /** Most significant digit first, in base ten. */
  lemma ToStringExamples()
    ensures ToString(2) == "2" && ToString(10) == "10" && ToString(65535) == "65535"
  {
    assert ToString(65) == "65" && ToString(655) == "655" && ToString(6553) == "6553";
  }

  /** Every counter value that fits an int survives being stored as text. */
  lemma StoiOfToString(n: nat)
    requires n < 0x8000_0000
    ensures Stoi(ToString(n)) == Some(n)
  {
    var s := ToString(n);
    NumberOfToString(n);
    assert IsDigit(s[0]);
    assert SkipSpace(s) == s;
    assert Leading(s) == |s|;
    assert s[..|s|] == s;
  }

  lemma {:induction false} SkipsSpaces(spaces: string, rest: string)
    requires forall k :: 0 <= k < |spaces| ==> IsSpace(spaces[k])
    requires rest == [] || !IsSpace(rest[0])
    ensures SkipSpace(spaces + rest) == rest
  {
    if spaces == [] {
      assert spaces + rest == rest;
    } else {
      assert (spaces + rest)[1..] == spaces[1..] + rest;
      SkipsSpaces(spaces[1..], rest);
    }
  }

  lemma {:induction false} LeadingDigits(digits: string, rest: string)
    requires forall k :: 0 <= k < |digits| ==> IsDigit(digits[k])
    requires rest == [] || !IsDigit(rest[0])
    ensures Leading(digits + rest) == |digits|
  {
    if digits == [] {
      assert digits + rest == rest;
    } else {
      assert (digits + rest)[1..] == digits[1..] + rest;
      LeadingDigits(digits[1..], rest);
    }
  }

  /** The number that text of digits stands for under a sign, if it fits an int. */
  function Fitting(digits: string, negative: bool): Option<int>
    requires forall k :: 0 <= k < |digits| ==> IsDigit(digits[k])
  {
    var n: int := Number(digits);
    var v := if negative then -n else n;
    if digits == "" || v < -0x8000_0000 || v > 0x7FFF_FFFF then None else Some(v)
  }

  lemma DigitsRead(digits: string, rest: string, negative: bool)
    requires forall k :: 0 <= k < |digits| ==> IsDigit(digits[k])
    requires rest == [] || !IsDigit(rest[0])
    ensures Digits(digits + rest, negative) == Fitting(digits, negative)
  {
    LeadingDigits(digits, rest);
    assert (digits + rest)[..|digits|] == digits;
  }

  lemma SignedReads(sign: string, digits: string, rest: string)
    requires sign == "" || sign == "+" || sign == "-"
    requires forall k :: 0 <= k < |digits| ==> IsDigit(digits[k])
    requires rest == [] || !IsDigit(rest[0])
    requires sign == "" && digits == "" && rest != [] ==> rest[0] !in "+-"
    ensures Signed(sign + (digits + rest)) == Fitting(digits, sign == "-")
  {
    var u := digits + rest;
    DigitsRead(digits, rest, sign == "-");
    if sign == "" {
      assert sign + u == u;
      assert u != [] ==> u[0] == if digits == "" then rest[0] else digits[0];
    } else {
      assert (sign + u)[1..] == u && (sign + u)[0] == sign[0];
    }
  }

  /** Every text: spaces, perhaps a sign, digits and whatever follows read as the signed number,
      unless there is no digit or the number does not fit an int. */
  lemma StoiReads(spaces: string, sign: string, digits: string, rest: string)
    requires forall k :: 0 <= k < |spaces| ==> IsSpace(spaces[k])
    requires sign == "" || sign == "+" || sign == "-"
    requires forall k :: 0 <= k < |digits| ==> IsDigit(digits[k])
    requires rest == [] || !IsDigit(rest[0])
    requires sign == "" && digits == "" && rest != [] ==> !IsSpace(rest[0]) && rest[0] !in "+-"
    ensures Stoi(spaces + (sign + (digits + rest))) == Fitting(digits, sign == "-")
  {
    var t := sign + (digits + rest);
    assert sign == "" ==> t == digits + rest;
    SkipsSpaces(spaces, t);
    SignedReads(sign, digits, rest);
  }
}
