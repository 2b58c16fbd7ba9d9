/** Decimal text of integers, as node and shard numbers are written on the hash ring. */
module Decimal {
  import opened Model

  function Digit(d: nat): char
    requires d < 10
  {
    ('0' as int + d) as char
  }

  predicate IsDigit(c: char) {
    '0' <= c <= '9'
  }

  function Digits(n: nat): (text: string)
    ensures |text| > 0 && IsDigit(text[0])
  {
    if n < 10 then [Digit(n)] else Digits(n / 10) + [Digit(n % 10)]
  }

  function Itoa(n: int): string {
    if n < 0 then "-" + Digits(-n) else Digits(n)
  }

  /** A number that is not negative is written in digits alone, without a leading zero; one below zero as its opposite
      after a minus sign. */
  lemma {:induction false} ItoaIsPlain(n: int)
    ensures n >= 0 ==> |Itoa(n)| > 0 && forall i :: 0 <= i < |Itoa(n)| ==> '0' <= Itoa(n)[i] <= '9'
    ensures n > 0 ==> Itoa(n)[0] != '0'
    ensures n == 0 ==> Itoa(n) == "0"
    ensures n < 0 ==> Itoa(n) == "-" + Itoa(-n)
    decreases if n < 0 then 0 else n
  {
    if n >= 10 {
      ItoaIsPlain(n / 10);
    }
  }

  /** Reads an unsigned decimal number. */
  function ReadDigits(text: string): Option<int> {
    if |text| == 0 || !IsDigit(text[|text| - 1]) then None
    else
      var d := text[|text| - 1] as int - '0' as int;
      if |text| == 1 then Some(d)
      else match ReadDigits(text[..|text| - 1])
        case None => None
        case Some(rest) => Some(10 * rest + d)
  }

  /** Reads a decimal number with an optional sign. */
  function Atoi(text: string): Option<int> {
    if |text| > 0 && text[0] == '-' then
      match ReadDigits(text[1..])
      case None => None
      case Some(n) => Some(-n)
    else if |text| > 0 && text[0] == '+' then ReadDigits(text[1..])
    else ReadDigits(text)
  }

  lemma {:induction false} ReadInvertsDigits(n: nat)
    ensures ReadDigits(Digits(n)) == Some(n)
  {
    if n >= 10 {
      ReadInvertsDigits(n / 10);
      assert Digits(n)[..|Digits(n)| - 1] == Digits(n / 10);
    }
  }

  /** Reading back what was written gives the number. */
  lemma AtoiInvertsItoa(n: int)
    ensures Atoi(Itoa(n)) == Some(n)
  {
    if n < 0 {
      ReadInvertsDigits(-n);
      assert Itoa(n)[1..] == Digits(-n);
    } else {
      ReadInvertsDigits(n);
    }
  }
}
