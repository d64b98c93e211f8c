/** Decimal text of signed 64-bit integers, printed as `%d` and read back as base-10 `ParseInt`. */
module Decimals {
  import opened Arithmetic
  import opened Octets
  import opened Options

  const MAX_INT64 := 0x7fff_ffff_ffff_ffff
  const MIN_INT64 := -0x8000_0000_0000_0000

  type Int64 = n: int | MIN_INT64 <= n <= MAX_INT64

  predicate IsDigit(c: Octet) {
    '0' <= c <= '9'
  }

  function Digits(n: nat): (s: Octets)
    ensures s != [] && forall i :: 0 <= i < |s| ==> IsDigit(s[i])
  {
    var last: Octet := At('0' as int + n % 10);
    if n < 10 then [last] else Digits(n / 10) + [last]
  }

  function FormatInt(n: Int64): Octets {
    var value: int := n;
    if value < 0 then ['-'] + Digits(-value) else Digits(value)
  }

  /** Value of a string of digits, or nothing for the empty string or any other character. */
  function Number(s: Octets): Option<nat> {
    if s == [] || !IsDigit(s[|s| - 1]) then None
    else
      var last := s[|s| - 1] as int - '0' as int;
      if |s| == 1 then Some(last)
      else
        match Number(s[..|s| - 1])
        case None => None
        case Some(n) => Some(10 * n + last)
  }

  function ParseInt(s: Octets): Option<Int64> {
    var signed := s != [] && (s[0] == '-' || s[0] == '+');
    match Number(if signed then s[1..] else s)
    case None => None
    case Some(n) =>
      var value: int := if signed && s[0] == '-' then -(n as int) else n;
      if MIN_INT64 <= value <= MAX_INT64 then Some(value) else None
  }

  lemma {:induction false} NumberOfDigits(n: nat)
    ensures Number(Digits(n)) == Some(n)
  {
    if n >= 10 {
      NumberOfDigits(n / 10);
      var s := Digits(n);
      assert s[..|s| - 1] == Digits(n / 10);
    }
  }

  lemma ParseFormatInt(n: Int64)
    ensures ParseInt(FormatInt(n)) == Some(n)
  {
    hide Number, Digits;
    var value: int := n;
    if value < 0 {
      NumberOfDigits(-value);
      assert FormatInt(n)[1..] == Digits(-value);
    } else {
      NumberOfDigits(n);
      assert IsDigit(Digits(n)[0]);
    }
  }

  lemma FormatIntCharacters(n: Int64)
    ensures FormatInt(n) != []
    ensures forall i :: 0 <= i < |FormatInt(n)| ==> IsDigit(FormatInt(n)[i]) || FormatInt(n)[i] == '-'
  {
  }

  function Zeros(count: nat): Octets {
    seq(count, _ => '0')
  }

  lemma {:induction false} LeadingZero(s: Octets)
    requires Number(s).Some?
    ensures Number(['0'] + s) == Number(s)
  {
    var t := ['0'] + s;
    assert t[|t| - 1] == s[|s| - 1];
    if |s| == 1 {
      assert t[..1] == ['0'] && Number(t[..1]) == Some(0);
    } else {
      LeadingZero(s[..|s| - 1]);
      assert t[..|t| - 1] == ['0'] + s[..|s| - 1];
    }
  }

  lemma {:induction false} PaddedReadsBack(count: nat, n: nat)
    ensures Number(Zeros(count) + Digits(n)) == Some(n)
  {
    NumberOfDigits(n);
    hide Number, Digits;
    if count == 0 {
      assert Zeros(0) + Digits(n) == Digits(n);
    } else {
      PaddedReadsBack(count - 1, n);
      LeadingZero(Zeros(count - 1) + Digits(n));
      assert Zeros(count) + Digits(n) == ['0'] + (Zeros(count - 1) + Digits(n));
    }
  }

  lemma DigitsSplit(m: nat, last: nat)
    requires m > 0 && last < 10
    ensures Digits(10 * m + last) == Digits(m) + [At('0' as int + last)]
  {
    assert (10 * m + last) / 10 == m && (10 * m + last) % 10 == last;
  }

  lemma OneDigit(last: nat)
    requires last < 10
    ensures Digits(last) == [At('0' as int + last)]
  {
  }

  lemma AppendDigit(before: nat, m: nat, last: nat) returns (count: nat)
    requires last < 10
    ensures Zeros(before) + Digits(m) + [At('0' as int + last)] == Zeros(count) + Digits(10 * m + last)
  {
    hide Digits;
    if m == 0 {
      count := before + 1;
      OneDigit(0);
      OneDigit(last);
      assert Zeros(before) + ['0'] == Zeros(before + 1);
    } else {
      count := before;
      DigitsSplit(m, last);
    }
  }

  /** A text of digits is its value with zeros before it. */
  lemma {:induction false} NumberIsPadded(s: Octets) returns (count: nat)
    requires Number(s).Some?
    ensures s == Zeros(count) + Digits(Number(s).value)
  {
    hide Digits;
    var last := s[|s| - 1] as int - '0' as int;
    assert s == s[..|s| - 1] + [At('0' as int + last)];
    if |s| == 1 {
      count := 0;
      OneDigit(last);
    } else {
      var before := NumberIsPadded(s[..|s| - 1]);
      count := AppendDigit(before, Number(s[..|s| - 1]).value, last);
    }
  }

  function Pow10(k: nat): nat {
    if k == 0 then 1 else 10 * Pow10(k - 1)
  }

  lemma {:induction false} Pow10IsPositive(k: nat)
    ensures Pow10(k) > 0
  {
    if k > 0 {
      Pow10IsPositive(k - 1);
    }
  }

  /** The k-th digit from the right is the k-th decimal place of the number. */
  lemma {:induction false} DigitIsPlace(n: nat, k: nat)
    requires k < |Digits(n)|
    ensures Pow10(k) > 0 && Digits(n)[|Digits(n)| - 1 - k] as int == 48 + n / Pow10(k) % 10
    decreases k
  {
    Pow10IsPositive(k);
    if k > 0 {
      DigitIsPlace(n / 10, k - 1);
      DivideByTenFirst(n, Pow10(k - 1));
      assert Digits(n)[..|Digits(n)| - 1] == Digits(n / 10);
    }
  }

  /** There are as many digits as the number has, and the first is not zero but for zero itself. */
  lemma {:induction false} DigitCount(n: nat)
    ensures n < Pow10(|Digits(n)|) && (n > 0 ==> Pow10(|Digits(n)| - 1) <= n)
  {
    if n >= 10 {
      DigitCount(n / 10);
      assert |Digits(n)| == |Digits(n / 10)| + 1;
      assert Pow10(|Digits(n)|) == 10 * Pow10(|Digits(n / 10)|);
    } else {
      assert Pow10(1) == 10 * Pow10(0);
    }
  }

  /** An integer is printed as its digits, after a minus when it is negative. */
  lemma FormatIntIs(n: Int64)
    ensures FormatInt(n) == if (n as int) < 0 then "-" + Digits(-(n as int)) else Digits(n as int)
  {
  }

  predicate IsInteger(s: Octets, sign: Octets, zeros: nat, m: nat, n: int) {
    && s == sign + (Zeros(zeros) + Digits(m))
    && (sign == "" || sign == "+" || sign == "-") && n == (if sign == "-" then -(m as int) else m)
    && -9223372036854775808 <= n <= 9223372036854775807
  }

  /** Which texts are read, and as what: an optional sign, any zeros, and digits in the range of 64 bits. */
  lemma ParseIntExactly(s: Octets, n: Int64)
    ensures var value: int := n;
      ParseInt(s) == Some(n) <==> exists sign, zeros, m :: IsInteger(s, sign, zeros, m, value)
  {
    hide Digits, Number;
    var value: int := n;
    if sign: Octets, zeros: nat, m: nat :| IsInteger(s, sign, zeros, m, value) {
      var digits := Zeros(zeros) + Digits(m);
      PaddedReadsBack(zeros, m);
      assert digits[0] == '0' || IsDigit(digits[0]) by { FirstIsDigit(zeros, m); }
      assert sign == "" ==> s == digits;
      assert sign != "" ==> s[1..] == digits;
    }
    if ParseInt(s) == Some(n) {
      var signed := s != [] && (s[0] == '-' || s[0] == '+');
      var digits := if signed then s[1..] else s;
      var zeros := NumberIsPadded(digits);
      var sign: Octets := if signed then [s[0]] else [];
      assert s == sign + digits;
      assert IsInteger(s, sign, zeros, Number(digits).value, value);
    }
  }

  lemma FirstIsDigit(zeros: nat, m: nat)
    ensures IsDigit((Zeros(zeros) + Digits(m))[0])
  {
  }
}
