/** Decimal numbers as streams print them and as `stoi` and `stol` read them. */
module Decimal {
  import opened Text
  import opened Wrappers

  const INT_MAX: int := 0x7FFF_FFFF
  const LONG_MAX: int := 0x7FFF_FFFF_FFFF_FFFF

  predicate IsDigit(c: char) { '0' <= c <= '9' }

  predicate AllSpace(s: string) { forall i :: 0 <= i < |s| ==> IsSpace(s[i]) }

  predicate AllDigits(s: string) { forall i :: 0 <= i < |s| ==> IsDigit(s[i]) }

  /** `os << n` */
  function Print(n: nat): (s: string)
    ensures s != "" && AllDigits(s)
  {
    if n < 10 then ['0' + n as char] else Print(n / 10) + ['0' + (n % 10) as char]
  }

  /** The value of the leading digits, after those already read. */
  function Leading(s: string, acc: nat): nat
  {
    if s != "" && IsDigit(s[0]) then Leading(s[1..], 10 * acc + (s[0] - '0') as nat) else acc
  }

  function SkipSpace(s: string): string
  {
    if s != "" && IsSpace(s[0]) then SkipSpace(s[1..]) else s
  }

  /** The number that starts here: a sign or none, and digits. */
  function Number(s: string): Option<int>
  {
    var digits := if s != "" && (s[0] == '-' || s[0] == '+') then s[1..] else s;
    if digits == "" || !IsDigit(digits[0]) then None
    else
      var value: int := Leading(digits, 0);
      Some(if s[0] == '-' then -value else value)
  }

  function Signed(s: string): Option<int> { Number(SkipSpace(s)) }

  /** `stoi` or `stol`, whose largest value is `max`; no value when it throws. */
  function Parse(s: string, max: int): Option<int>
  {
    var number := Signed(s);
    if number.Some? && -max - 1 <= number.value <= max then number else None
  }

  /** `iss >> value` for an `int` that held `before`: a number out of range is
      replaced by the nearest in range, a missing one by 0, and at the end of the
      stream nothing is stored. */
  function ReadInt(s: string, before: int): (value: int)
    ensures value == before || -INT_MAX - 1 <= value <= INT_MAX
  {
    var number := Signed(s);
    if SkipSpace(s) == "" then before
    else if number.None? then 0
    else if number.value > INT_MAX then INT_MAX
    else if number.value < -INT_MAX - 1 then -INT_MAX - 1
    else number.value
  }

  lemma {:induction false} LeadingSplit(s: string, t: string, acc: nat)
    requires AllDigits(s)
    ensures Leading(s + t, acc) == Leading(t, Leading(s, acc))
  {
    if s == "" {
      assert s + t == t;
    } else {
      assert (s + t)[1..] == s[1..] + t;
      LeadingSplit(s[1..], t, 10 * acc + (s[0] - '0') as nat);
    }
  }

  lemma {:induction false} LeadingOfPrint(n: nat)
    ensures Leading(Print(n), 0) == n
  {
    if n >= 10 {
      var d := ['0' + (n % 10) as char];
      LeadingOfPrint(n / 10);
      LeadingSplit(Print(n / 10), d, 0);
      assert Leading(d, n / 10) == Leading("", 10 * (n / 10) + n % 10);
    }
  }

  /** What is printed is the number in the digits 0 to 9, most significant first. */
  lemma PrintDigits(n: nat, d: nat)
    requires d < 10
    ensures Print(10 * n + d) == (if n == 0 then "" else Print(n)) + ["0123456789"[d]]
  {
  }

  lemma {:induction false} SpaceSkipped(space: string, s: string)
    requires AllSpace(space) && (s == "" || !IsSpace(s[0]))
    ensures SkipSpace(space + s) == s
  {
    if space == "" {
      assert space + s == s;
    } else {
      assert (space + s)[1..] == space[1..] + s;
      SpaceSkipped(space[1..], s);
    }
  }

  lemma LeadingOfPrinted(n: nat, rest: string)
    requires rest == "" || !IsDigit(rest[0])
    ensures Leading(Print(n) + rest, 0) == n && IsDigit((Print(n) + rest)[0])
  {
    LeadingOfPrint(n);
    LeadingSplit(Print(n), rest, 0);
    assert (Print(n) + rest)[0] == Print(n)[0];
  }

  lemma NumberOfPrint(sign: string, n: int, rest: string)
    requires n >= 0 && sign in ["", "+", "-"] && (rest == "" || !IsDigit(rest[0]))
    ensures var t := sign + (Print(n) + rest);
            t != "" && !IsSpace(t[0]) && Number(t) == Some(if sign == "-" then -n else n)
  {
    LeadingOfPrinted(n, rest);
    hide Print, Leading;
    var t := sign + (Print(n) + rest);
    if sign == "" {
      assert t == Print(n) + rest;
    } else {
      assert t[0] == sign[0] && t[1..] == Print(n) + rest;
    }
  }

  /** A printed number is read back, after spaces and with either sign, up to the
      first character that is not a digit. */
  lemma SignedOfPrint(space: string, sign: string, n: int, rest: string)
    requires AllSpace(space) && n >= 0 && sign in ["", "+", "-"] && (rest == "" || !IsDigit(rest[0]))
    ensures SkipSpace(space + (sign + (Print(n) + rest))) != ""
    ensures Signed(space + (sign + (Print(n) + rest))) == Some(if sign == "-" then -n else n)
  {
    hide Print, SkipSpace, Number, AllSpace;
    NumberOfPrint(sign, n, rest);
    SpaceSkipped(space, sign + (Print(n) + rest));
  }

  /** A printed number reads back as itself. */
  lemma PrintThenParse(n: nat, max: int)
    requires n <= max
    ensures Parse(Print(n), max) == Some(n)
  {
    hide Print, Signed;
    SignedOfPrint("", "", n, "");
    assert "" + ("" + (Print(n) + "")) == Print(n);
  }

  lemma PrintInjective(m: nat, n: nat)
    requires Print(m) == Print(n)
    ensures m == n
  {
    LeadingOfPrint(m);
    LeadingOfPrint(n);
  }
}
