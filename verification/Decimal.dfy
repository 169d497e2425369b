/** `sprintf("%d")` and `atoi`, the two library routines a stored flags value passes through. */
module Decimal {
  import opened Common

  predicate IsDigit(c: char) { '0' <= c <= '9' }

  predicate IsSpace(c: char) { c == ' ' || 9 as char <= c <= 13 as char }

  function DigitChar(d: nat): (c: char)
    requires d < 10
    ensures IsDigit(c)
  {
    ('0' as int + d) as char
  }

  /** Decimal digits, most significant first, without leading zeros. */
  function Digits(n: nat): (s: string)
    ensures s != ""
    ensures forall i :: 0 <= i < |s| ==> IsDigit(s[i])
  {
    if n < 10 then [DigitChar(n)] else Digits(n / 10) + [DigitChar(n % 10)]
  }

  function Magnitude(n: int32): nat {
    var x: int := n;
    if x < 0 then -x else x
  }

  /** The text "%d" produces. */
  function FormatInt(n: int32): string {
    if n < 0 then "-" + Digits(Magnitude(n)) else Digits(Magnitude(n))
  }

  /** Number read from the leading digits of s, continuing from acc. */
  function ReadDigits(s: string, acc: nat): nat {
    if s == "" || !IsDigit(s[0]) then acc
    else ReadDigits(s[1..], acc * 10 + (s[0] as int - '0' as int))
  }

  function SkipSpaces(s: string): string {
    if s != "" && IsSpace(s[0]) then SkipSpaces(s[1..]) else s
  }

  function ReadSigned(t: string): int {
    if t != "" && t[0] == '-' then var v: int := ReadDigits(t[1..], 0); -v
    else if t != "" && t[0] == '+' then ReadDigits(t[1..], 0)
    else ReadDigits(t, 0)
  }

  /** C's atoi. A number that does not fit is reduced to 32 bits (C leaves that case undefined). */
  function Atoi(s: string): int32 {
    ToInt32(ReadSigned(SkipSpaces(s)))
  }

  function Pow10(k: nat): nat { if k == 0 then 1 else 10 * Pow10(k - 1) }

  lemma {:induction false} DigitsLength(n: nat, k: nat)
    requires k >= 1 && n < Pow10(k)
    ensures |Digits(n)| <= k
  {
    if n < 10 {
    } else {
      assert Pow10(1) == 10;
      DigitsLength(n / 10, k - 1);
    }
  }

  lemma {:induction false} ReadDigitsAppend(s: string, c: char, acc: nat)
    requires forall i :: 0 <= i < |s| ==> IsDigit(s[i])
    requires IsDigit(c)
    ensures ReadDigits(s + [c], acc) == ReadDigits(s, acc) * 10 + (c as int - '0' as int)
  {
    if s == "" {
      assert (s + [c])[1..] == "";
    } else {
      assert (s + [c])[1..] == s[1..] + [c];
      ReadDigitsAppend(s[1..], c, acc * 10 + (s[0] as int - '0' as int));
    }
  }

  lemma {:induction false} ReadDigitsOfDigits(n: nat)
    ensures ReadDigits(Digits(n), 0) == n
  {
    if n < 10 {
      assert Digits(n)[1..] == "";
    } else {
      ReadDigitsOfDigits(n / 10);
      ReadDigitsAppend(Digits(n / 10), DigitChar(n % 10), 0);
    }
  }

  lemma ReadSignedOfFormat(n: int32)
    ensures ReadSigned(FormatInt(n)) == n
  {
    var digits := Digits(Magnitude(n));
    ReadDigitsOfDigits(Magnitude(n));
    if n < 0 {
      assert ("-" + digits)[1..] == digits;
    } else {
      assert IsDigit(digits[0]);
    }
  }

  /** Every 32-bit flags value fits the 16-byte buffer, terminator included. */
  lemma FormatFitsBuffer(n: int32)
    ensures 1 <= |FormatInt(n)| <= 11
  {
    assert Pow10(10) == 10_000_000_000;
    DigitsLength(Magnitude(n), 10);
  }

  lemma FormatStartsWithoutSpace(n: int32)
    ensures SkipSpaces(FormatInt(n)) == FormatInt(n)
  {
    assert IsDigit(Digits(Magnitude(n))[0]);
  }

  /** atoi recovers every 32-bit value that "%d" wrote. */
  lemma AtoiOfFormat(n: int32)
    ensures Atoi(FormatInt(n)) == n
  {
    FormatStartsWithoutSpace(n);
    ReadSignedOfFormat(n);
  }

  // ---- the two routines, position by position

  /** The number a string of digits stands for. */
  ghost function Value(digits: string): int {
    if digits == "" then 0 else 10 * Value(digits[..|digits| - 1]) + (digits[|digits| - 1] as int - 48)
  }

  /** "%d" writes a minus sign for negative numbers only, then decimal digits of that value with no
      leading zero. */
  lemma FormatMeaning(n: int32)
    ensures
      var t := FormatInt(n);
      var d := if n < 0 then t[1..] else t;
      && (n < 0 ==> t[0] == '-')
      && d != "" && (|d| > 1 ==> d[0] != '0') && (forall i :: 0 <= i < |d| ==> '0' <= d[i] <= '9')
      && (n < 0 ==> Value(d) + n == 0) && (n >= 0 ==> Value(d) == n)
  {
    DigitsMeaning(Magnitude(n));
    assert n < 0 ==> FormatInt(n)[1..] == Digits(Magnitude(n));
  }

  lemma {:induction false} DigitsMeaning(n: nat)
    ensures Value(Digits(n)) == n && (n > 0 ==> Digits(n)[0] != '0') && (n < 10 ==> |Digits(n)| == 1)
  {
    var d := Digits(n);
    assert Value("") == 0;
    if n < 10 {
      assert d[..0] == "";
    } else {
      DigitsMeaning(n / 10);
      assert d == Digits(n / 10) + [DigitChar(n % 10)];
      assert d[..|d| - 1] == Digits(n / 10);
    }
  }

  lemma {:induction false} ReadDigitsMeaning(digits: string, rest: string)
    requires forall i :: 0 <= i < |digits| ==> '0' <= digits[i] <= '9'
    requires rest == "" || !('0' <= rest[0] <= '9')
    ensures ReadDigits(digits + rest, 0) == ReadDigits(digits, 0) == Value(digits)
    decreases |digits|
  {
    StopsAtNonDigit(digits, rest, 0);
    if digits == "" {
    } else {
      var front, last := digits[..|digits| - 1], digits[|digits| - 1];
      ReadDigitsMeaning(front, "");
      ReadDigitsAppend(front, last, 0);
      assert front + [last] == digits && front + "" == front;
    }
  }

  lemma {:induction false} StopsAtNonDigit(digits: string, rest: string, acc: nat)
    requires forall i :: 0 <= i < |digits| ==> '0' <= digits[i] <= '9'
    requires rest == "" || !('0' <= rest[0] <= '9')
    ensures ReadDigits(digits + rest, acc) == ReadDigits(digits, acc)
  {
    if digits == "" {
      assert digits + rest == rest;
    } else {
      assert (digits + rest)[1..] == digits[1..] + rest;
      StopsAtNonDigit(digits[1..], rest, acc * 10 + (digits[0] as int - '0' as int));
    }
  }

  lemma {:induction false} SkipsSpaces(spaces: string, t: string)
    requires forall i :: 0 <= i < |spaces| ==> spaces[i] == ' ' || 9 <= spaces[i] as int <= 13
    requires t == "" || !(t[0] == ' ' || 9 <= t[0] as int <= 13)
    ensures SkipSpaces(spaces + t) == t
  {
    if spaces == "" {
      assert spaces + t == t;
    } else {
      assert (spaces + t)[1..] == spaces[1..] + t;
      SkipsSpaces(spaces[1..], t);
    }
  }

  /** atoi skips white space, takes one sign, reads digits up to the first other character, and gives the
      number reduced to 32 bits. */
  lemma AtoiMeaning(spaces: string, sign: string, digits: string, rest: string)
    requires forall i :: 0 <= i < |spaces| ==> spaces[i] == ' ' || 9 <= spaces[i] as int <= 13
    requires sign == "" || sign == "-" || sign == "+"
    requires forall i :: 0 <= i < |digits| ==> '0' <= digits[i] <= '9'
    requires rest == "" || !('0' <= rest[0] <= '9')
    requires sign == "" && digits == "" && rest != "" ==>
      rest[0] != '-' && rest[0] != '+' && rest[0] != ' ' && !(9 <= rest[0] as int <= 13)
    ensures
      var v := if sign == "-" then -Value(digits) else Value(digits);
      var r := Atoi(spaces + (sign + (digits + rest)));
      (r - v) % 0x1_0000_0000 == 0
  {
    hide ReadSigned, SkipSpaces, Value;
    var t := sign + (digits + rest);
    SignedMeaning(sign, digits, rest);
    FirstCharacter(sign, digits, rest);
    SkipsSpaces(spaces, t);
    Congruent(ReadSigned(t));
  }

  lemma FirstCharacter(sign: string, digits: string, rest: string)
    requires sign == "" || sign == "-" || sign == "+"
    ensures sign + (digits + rest) ==
      if sign != "" then [sign[0]] + (digits + rest) else if digits != "" then [digits[0]] + (digits[1..] + rest) else rest
  {
  }

  lemma SignedMeaning(sign: string, digits: string, rest: string)
    requires sign == "" || sign == "-" || sign == "+"
    requires forall i :: 0 <= i < |digits| ==> '0' <= digits[i] <= '9'
    requires rest == "" || !('0' <= rest[0] <= '9')
    requires sign == "" && digits == "" && rest != "" ==> rest[0] != '-' && rest[0] != '+'
    ensures ReadSigned(sign + (digits + rest)) == if sign == "-" then -Value(digits) else Value(digits)
  {
    hide ReadSigned, ReadDigits, Value;
    var u := digits + rest;
    ReadDigitsMeaning(digits, rest);
    if digits != "" {
      assert u[0] == digits[0];
    } else {
      assert u == rest;
    }
    SignThenNumber(sign, u);
  }

  lemma SignThenNumber(sign: string, u: string)
    requires sign == "" || sign == "-" || sign == "+"
    requires sign == "" && u != "" ==> u[0] != '-' && u[0] != '+'
    ensures var v: int := ReadDigits(u, 0);
      ReadSigned(sign + u) == if sign == "-" then -v else v
  {
    hide ReadDigits;
    var t := sign + u;
    if sign == "" {
      assert t == u;
    } else {
      assert t[0] == sign[0] && t[1..] == u;
    }
  }

  lemma Congruent(x: int)
    ensures (ToInt32(x) - x) % 0x1_0000_0000 == 0
  {
  }
}
