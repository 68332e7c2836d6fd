/**
 * strconv.Atoi and strconv.Itoa on a 64-bit platform, where Go's `int` has
 * 64 bits. Atoi accepts an optional sign followed by at least one decimal
 * digit, and fails when the value does not fit the int range.
 */
module Strconv {
  import opened Wrappers

  const MinInt64: int := -0x8000_0000_0000_0000
  const MaxInt64: int := 0x7FFF_FFFF_FFFF_FFFF

  /** A *strconv.NumError of Atoi; `num` is the text that was rejected. */
  datatype NumError = NumError(num: string)

  predicate IsDigit(c: char) { '0' <= c <= '9' }

  predicate AllDigits(s: string) { forall i :: 0 <= i < |s| ==> IsDigit(s[i]) }

  function DigitValue(c: char): (d: nat)
    requires IsDigit(c)
    ensures d < 10
  {
    c as int - '0' as int
  }

  function DigitChar(d: nat): (c: char)
    requires d < 10
    ensures IsDigit(c) && DigitValue(c) == d
  {
    ('0' as int + d) as char
  }

  /** The number a string of decimal digits denotes, most significant digit first. */
  function DecimalValue(s: string): nat
    requires AllDigits(s)
  {
    if |s| == 0 then 0 else DecimalValue(s[..|s| - 1]) * 10 + DigitValue(s[|s| - 1])
  }

  /** A text with its one optional leading sign removed. */
  function Unsigned(s: string): string
  {
    if |s| > 0 && (s[0] == '-' || s[0] == '+') then s[1..] else s
  }

  /** The number a sign and decimal digits denote, negative exactly when the sign is '-'. */
  function SignedValue(s: string): int
    requires AllDigits(Unsigned(s))
  {
    if |s| > 0 && s[0] == '-' then 0 - DecimalValue(Unsigned(s)) else DecimalValue(Unsigned(s))
  }

  /**
   * strconv.Atoi: a text is accepted exactly when it is an optional sign and
   * at least one digit denoting a 64-bit int, which is then the result.
   */
  function Atoi(s: string): (r: Result<int, NumError>)
    ensures r.Ok? <==> |Unsigned(s)| > 0 && AllDigits(Unsigned(s)) && MinInt64 <= SignedValue(s) <= MaxInt64
    ensures r.Ok? ==> r.value == SignedValue(s)
    ensures r.Ok? ==> MinInt64 <= r.value <= MaxInt64
    ensures r.Err? ==> r.error == NumError(s)
  {
    var signed := |s| > 0 && (s[0] == '-' || s[0] == '+');
    var digits := if signed then s[1..] else s;
    if |digits| == 0 || !AllDigits(digits) then Err(NumError(s))
    else
      var v: int := if signed && s[0] == '-' then 0 - DecimalValue(digits) else DecimalValue(digits);
      if v < MinInt64 || v > MaxInt64 then Err(NumError(s)) else Ok(v)
  }

  /** The shortest decimal spelling of a natural number. */
  function Digits(n: nat): (s: string)
    ensures |s| >= 1 && AllDigits(s)
  {
    if n < 10 then [DigitChar(n)] else Digits(n / 10) + [DigitChar(n % 10)]
  }

  /** strconv.Itoa. */
  function Itoa(n: int): string
  {
    if n < 0 then "-" + Digits(-n) else Digits(n)
  }

  lemma {:induction false} DecimalOfDigits(n: nat)
    ensures DecimalValue(Digits(n)) == n
  {
    if n >= 10 {
      var s := Digits(n);
      assert s[..|s| - 1] == Digits(n / 10);
      DecimalOfDigits(n / 10);
    }
  }

  /** Itoa's text reads back as the same number. */
  lemma AtoiItoa(n: int)
    requires MinInt64 <= n <= MaxInt64
    ensures Atoi(Itoa(n)) == Ok(n)
  {
    if n < 0 {
      AtoiNegative(n);
    } else {
      DecimalOfDigits(n);
      var s := Digits(n);
      assert IsDigit(s[0]) && s[0] != '-' && s[0] != '+';
      assert Itoa(n) == s;
    }
  }

  lemma AtoiNegative(n: int)
    requires MinInt64 <= n < 0
    ensures Atoi(Itoa(n)) == Ok(n)
  {
    var m: nat := -n;
    DecimalOfDigits(m);
    var s := Itoa(n);
    assert s == "-" + Digits(m);
    assert s[0] == '-' && s[1..] == Digits(m);
  }

  /** Different numbers are spelled differently. */
  lemma ItoaInjective(a: int, b: int)
    requires Itoa(a) == Itoa(b)
    ensures a == b
  {
    var ma := if a < 0 then -a else a;
    var mb := if b < 0 then -b else b;
    DecimalOfDigits(ma);
    DecimalOfDigits(mb);
    assert (Itoa(a)[0] == '-') == (a < 0);
    assert (Itoa(b)[0] == '-') == (b < 0);
    if a < 0 {
      assert Itoa(a)[1..] == Digits(ma) && Itoa(b)[1..] == Digits(mb);
    } else {
      assert Digits(ma) == Digits(mb);
    }
  }

  /** A character that is neither a digit nor a leading sign makes Atoi fail. */
  lemma AtoiRejectsNonDigit(s: string, i: nat)
    requires i < |s| && !IsDigit(s[i]) && (i == 0 ==> s[0] != '-' && s[0] != '+')
    ensures Atoi(s).Err?
  {
    var signed := |s| > 0 && (s[0] == '-' || s[0] == '+');
    var digits := if signed then s[1..] else s;
    if signed {
      assert digits[i - 1] == s[i];
    } else {
      assert digits[i] == s[i];
    }
  }

  /** A leading zero does not change the number digits denote. */
  lemma {:induction false} DecimalLeadingZero(s: string)
    requires AllDigits(s)
    ensures AllDigits("0" + s) && DecimalValue("0" + s) == DecimalValue(s)
  {
    if |s| > 0 {
      var t := "0" + s;
      assert t[..|t| - 1] == "0" + s[..|s| - 1];
      DecimalLeadingZero(s[..|s| - 1]);
    }
  }

  /** Leading zeros are accepted and ignored: "007" reads as 7. */
  lemma AtoiLeadingZero(s: string)
    requires |s| > 0 && AllDigits(s)
    ensures Atoi("0" + s).Ok? == Atoi(s).Ok?
    ensures Atoi(s).Ok? ==> Atoi("0" + s).value == Atoi(s).value
  {
    DecimalLeadingZero(s);
    assert Unsigned("0" + s) == "0" + s && Unsigned(s) == s;
  }

  /** A '+' sign is accepted and ignored: "+5" reads as 5. */
  lemma AtoiPlus(s: string)
    requires |s| > 0 && AllDigits(s)
    ensures Atoi("+" + s).Ok? == Atoi(s).Ok?
    ensures Atoi(s).Ok? ==> Atoi("+" + s).value == Atoi(s).value
  {
    assert Unsigned("+" + s) == s && Unsigned(s) == s;
  }

  /** A text with no digit after its sign is refused. */
  lemma AtoiNoDigits()
    ensures Atoi("").Err? && Atoi("-").Err? && Atoi("+").Err?
  {
    assert Unsigned("-") == [] && Unsigned("+") == [];
  }

  /** A number outside the 64-bit range is refused, however it is spelled canonically. */
  lemma AtoiOutOfRange(n: int)
    requires n < MinInt64 || n > MaxInt64
    ensures Atoi(Itoa(n)).Err?
  {
    var m: nat := if n < 0 then -n else n;
    DecimalOfDigits(m);
    var s := Itoa(n);
    if n < 0 {
      assert s == "-" + Digits(m) && Unsigned(s) == Digits(m);
    } else {
      var d := Digits(m);
      assert IsDigit(d[0]) && s == d && Unsigned(s) == d;
    }
  }

  /** Spellings other than Itoa's that Atoi reads. */
  lemma AtoiSpellings()
    ensures Atoi("+5") == Ok(5) && Atoi("007") == Ok(7) && Atoi("-0") == Ok(0)
  {
    assert Unsigned("+5") == "5" && Unsigned("-0") == "0";
    assert "007"[..2] == "00" && "00"[..1] == "0";
  }
}
