/** Printing and parsing unsigned decimal numbers. */
module Decimal {
  import opened Common
  import opened Text

  function Print(n: nat): (s: string)
    ensures s != ""
  {
    if n < 10 then [Digit(n)] else Print(n / 10) + [Digit(n % 10)]
  }

  function Digit(n: nat): char
    requires n < 10
  {
    '0' + n as char
  }

  predicate IsDigit(c: char) {
    '0' <= c <= '9'
  }

  /** The value of a string of digits; None if any character is not one. */
  function Value(s: string): Option<nat> {
    if s == "" then Some(0)
    else
      var n := |s| - 1;
      match Value(s[..n])
      case Some(high) => if IsDigit(s[n]) then Some(high * 10 + (s[n] as int - '0' as int)) else None
      case None => None
  }

  /** `parse::<uN>()`: one optional plus sign, at least one digit, nothing above `max`. */
  function Parse(s: string, max: nat): Option<nat> {
    var digits := if s != "" && s[0] == '+' then s[1..] else s;
    match Value(digits)
    case Some(n) => if digits != "" && n <= max then Some(n) else None
    case None => None
  }

  lemma {:induction false} PrintIsDigits(n: nat)
    ensures forall c :: c in Print(n) ==> IsDigit(c)
  {
    if n >= 10 {
      PrintIsDigits(n / 10);
    }
  }

  lemma {:induction false} ValueOfPrint(n: nat)
    ensures Value(Print(n)) == Some(n)
  {
    if n < 10 {
      assert Print(n)[..0] == "";
    } else {
      ValueOfPrint(n / 10);
      assert Print(n)[..|Print(n)| - 1] == Print(n / 10);
    }
  }

  lemma ParsePrint(n: nat, max: nat)
    requires n <= max
    ensures Parse(Print(n), max) == Some(n)
  {
    PrintIsDigits(n);
    ValueOfPrint(n);
    assert Print(n)[0] in Print(n);
  }

  lemma PrintIsAWord(n: nat)
    ensures Print(n) != "" && forall c :: c in Print(n) ==> !IsWhitespace(c) && c != '(' && c != ')' && c != '\n'
  {
    PrintIsDigits(n);
  }

  lemma {:induction false} DigitsHaveAValue(s: string)
    ensures Value(s).Some? <==> forall c :: c in s ==> IsDigit(c)
  {
    if s != "" {
      var n := |s| - 1;
      DigitsHaveAValue(s[..n]);
      assert s == s[..n] + [s[n]];
    }
  }

  /** A number is read from digits after at most one plus sign, if there are any and it is not too large. */
  lemma ParsesIff(s: string, max: nat)
    ensures var digits := if "+" <= s then s[1..] else s;
      && (Parse(s, max).Some?
          <==> digits != "" && (forall c :: c in digits ==> IsDigit(c)) && Value(digits).Some? && Value(digits).value <= max)
      && (Parse(s, max).Some? ==> Parse(s, max) == Value(digits))
  {
    DigitsHaveAValue(if "+" <= s then s[1..] else s);
  }

  /** What does not fit is not read. */
  lemma TooLargeIsRefused(n: nat, max: nat)
    requires n > max
    ensures Parse(Print(n), max) == None
  {
    PrintIsDigits(n);
    ValueOfPrint(n);
    assert Print(n)[0] in Print(n);
  }
}
