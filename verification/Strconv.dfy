/** Decimal printing and parsing of 64-bit integers, as Go's strconv does for base 10. */
module Strconv {
  import opened Base

  const MIN_INT64: int := -0x8000_0000_0000_0000
  const MAX_INT64: int := 0x7FFF_FFFF_FFFF_FFFF

  predicate IsInt64(n: int) {
    MIN_INT64 <= n <= MAX_INT64
  }

  predicate IsDigit(c: char) {
    '0' <= c <= '9'
  }

  function DigitChar(d: nat): char
    requires d < 10
  {
    ('0' as int + d) as char
  }

  function DigitValue(c: char): nat
    requires IsDigit(c)
  {
    c as int - '0' as int
  }

  function FormatNat(n: nat): string {
    if n < 10 then [DigitChar(n)] else FormatNat(n / 10) + [DigitChar(n % 10)]
  }

  function FormatInt(n: int): string {
    if n < 0 then "-" + FormatNat(-n) else FormatNat(n)
  }

  /** Reads digits from left to right; any other character is a syntax error. */
  function ParseDigits(s: string, acc: nat): Option<nat> {
    if s == "" then Some(acc)
    else if !IsDigit(s[0]) then None
    else ParseDigits(s[1..], 10 * acc + DigitValue(s[0]))
  }

  /** An optional sign, at least one digit, and a value that fits in 64 bits; otherwise an error. */
  function ParseInt(s: string): Option<int> {
    if s == "" then None
    else
      var negative := s[0] == '-';
      var digits := if s[0] == '-' || s[0] == '+' then s[1..] else s;
      if digits == "" then None
      else
        match ParseDigits(digits, 0)
        case None => None
        case Some(u) =>
          var n: int := if negative then 0 - u else u;
          if IsInt64(n) then Some(n) else None
  }

  lemma {:induction false} ParseDigitsAppend(s: string, t: string, acc: nat)
    ensures ParseDigits(s + t, acc)
         == match ParseDigits(s, acc) case None => None case Some(v) => ParseDigits(t, v)
  {
    if s == "" {
      assert s + t == t;
    } else {
      assert (s + t)[1..] == s[1..] + t;
      if IsDigit(s[0]) {
        ParseDigitsAppend(s[1..], t, 10 * acc + DigitValue(s[0]));
      }
    }
  }

  lemma {:induction false} ParseFormatNat(n: nat)
    ensures FormatNat(n) != "" && IsDigit(FormatNat(n)[0])
    ensures ParseDigits(FormatNat(n), 0) == Some(n)
  {
    if n < 10 {
      assert ParseDigits([DigitChar(n)], 0) == ParseDigits("", n);
    } else {
      ParseFormatNat(n / 10);
      ParseDigitsAppend(FormatNat(n / 10), [DigitChar(n % 10)], 0);
      assert ParseDigits([DigitChar(n % 10)], n / 10) == ParseDigits("", n);
    }
  }

  /** Every 64-bit integer survives printing and parsing; no other integer does. */
  lemma ParseFormat(n: int)
    ensures ParseInt(FormatInt(n)) == if IsInt64(n) then Some(n) else None
  {
    if n < 0 {
      ParseFormatNat(-n);
      assert FormatInt(n)[1..] == FormatNat(-n);
    } else {
      ParseFormatNat(n);
    }
  }

  /** Whatever parses is a 64-bit integer, and re-printing it gives a text that parses to the same value. */
  lemma ParsedIsInt64(s: string)
    requires ParseInt(s).Some?
    ensures IsInt64(ParseInt(s).value)
    ensures ParseInt(FormatInt(ParseInt(s).value)) == ParseInt(s)
  {
    ParseFormat(ParseInt(s).value);
  }

  // ---------- what the texts mean, digit by digit ----------

  function Pow10(n: nat): nat {
    if n == 0 then 1 else 10 * Pow10(n - 1)
  }

  /** A nonempty text of the characters 0 to 9. */
  predicate Decimal(s: string) {
    s != "" && forall i :: 0 <= i < |s| ==> '0' <= s[i] <= '9'
  }

  /** The positional value: each digit times ten to the number of digits after it. */
  function Positional(s: string): nat
    requires forall i :: 0 <= i < |s| ==> '0' <= s[i] <= '9'
  {
    if s == "" then 0
    else
      var digit: nat := s[0] as int - 48;
      digit * Pow10(|s| - 1) + Positional(s[1..])
  }

  lemma {:induction false} ParseDigitsIff(s: string, acc: nat)
    ensures ParseDigits(s, acc).Some? <==> forall i :: 0 <= i < |s| ==> '0' <= s[i] <= '9'
    ensures ParseDigits(s, acc).Some? ==> ParseDigits(s, acc).value == acc * Pow10(|s|) + Positional(s)
  {
    if s != "" && IsDigit(s[0]) {
      var d := DigitValue(s[0]);
      ParseDigitsIff(s[1..], 10 * acc + d);
      assert forall i :: 1 <= i < |s| ==> s[i] == s[1..][i - 1];
      Shift(acc, d, Pow10(|s| - 1));
    }
  }

  lemma Shift(acc: nat, d: nat, p: nat)
    ensures (10 * acc + d) * p == acc * (10 * p) + d * p
  {
  }

  /** s is an optional sign and the digits d, and they say n. */
  ghost predicate Spells(s: string, sign: string, d: string, n: int) {
    && (sign == "" || sign == "+" || sign == "-")
    && s == sign + d && Decimal(d)
    && (sign == "-" ==> n == 0 - Positional(d))
    && (sign != "-" ==> n == Positional(d))
  }

  lemma SpelledIsRead(s: string, sign: string, d: string, n: int)
    requires Spells(s, sign, d, n)
    ensures ParseInt(s) == if IsInt64(n) then Some(n) else None
  {
    ParseDigitsIff(d, 0);
    assert s[|sign|] == d[0] && s[|sign|..] == d;
    if sign != "" {
      assert s[0] == sign[0];
    }
  }

  lemma ReadIsSpelled(s: string)
    requires ParseInt(s).Some?
    ensures exists sign, d :: Spells(s, sign, d, ParseInt(s).value)
  {
    var signed := s[0] == '-' || s[0] == '+';
    var sign, d := if signed then [s[0]] else "", if signed then s[1..] else s;
    assert s == sign + d;
    ParseDigitsIff(d, 0);
    assert Spells(s, sign, d, ParseInt(s).value);
  }

  /** A text is read as n exactly when it is an optional sign and at least one digit, and nothing
      else, whose positional value with that sign is n, and n fits in 64 bits. */
  lemma ParseIntIff(s: string, n: int)
    ensures ParseInt(s) == Some(n) <==>
            && -9223372036854775808 <= n <= 9223372036854775807
            && exists sign, d :: Spells(s, sign, d, n)
  {
    if ParseInt(s).Some? {
      ReadIsSpelled(s);
    }
    if exists sign, d :: Spells(s, sign, d, n) {
      var sign, d :| Spells(s, sign, d, n);
      SpelledIsRead(s, sign, d, n);
    }
  }

  lemma {:induction false} FormatNatIs(n: nat)
    ensures Decimal(FormatNat(n)) && Positional(FormatNat(n)) == n
    ensures |FormatNat(n)| > 1 ==> FormatNat(n)[0] != '0'
  {
    ParseFormatNat(n);
    ParseDigitsIff(FormatNat(n), 0);
    if n >= 10 {
      FormatNatIs(n / 10);
      if |FormatNat(n / 10)| == 1 {
        assert Positional(FormatNat(n / 10)[1..]) == 0;
        assert FormatNat(n / 10)[0] != '0';
      }
    }
  }

  /** Printing gives the canonical text: a minus sign for negative integers only, then the decimal
      digits of the magnitude without leading zeros. */
  lemma FormatIntIs(n: int)
    ensures exists d :: Spells(FormatInt(n), if n < 0 then "-" else "", d, n) && (|d| > 1 ==> d[0] != '0')
  {
    var d := FormatNat(if n < 0 then -n else n);
    FormatNatIs(if n < 0 then -n else n);
    assert Spells(FormatInt(n), if n < 0 then "-" else "", d, n);
  }
}
