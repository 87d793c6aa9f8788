/** Which window identifiers a preview accepts: a fixed prefix and a decimal number that fits an int. */
module WindowId {
  import opened Bytes

  const INT_MAX: int32 := 0x7FFF_FFFF

  const PREFIX := "_Window_Id_"

  predicate IsDigit(c: char) {
    '0' <= c <= '9'
  }

  predicate AllDigits(s: string) {
    forall i :: 0 <= i < |s| ==> IsDigit(s[i])
  }

  function DigitValue(c: char): (v: nat)
    requires IsDigit(c)
    ensures v <= 9
  {
    c as int - '0' as int
  }

  /** The number a string of digits denotes, of any size. */
  function Value(s: string): nat
    requires AllDigits(s)
  {
    if s == "" then 0 else Value(s[..|s| - 1]) * 10 + DigitValue(s[|s| - 1])
  }

  /** The prefix, one or more digits, and their number within 1..INT_MAX. */
  predicate Valid(windowId: string) {
    && PREFIX < windowId
    && AllDigits(windowId[|PREFIX|..])
    && 1 <= Value(windowId[|PREFIX|..]) <= INT_MAX
  }

  lemma {:induction false} ValueGrows(s: string, n: nat)
    requires AllDigits(s) && n <= |s|
    ensures Value(s[..n]) <= Value(s)
  {
    if n == |s| {
      assert s[..n] == s;
    } else {
      ValueGrows(s[..|s| - 1], n);
      assert s[..|s| - 1][..n] == s[..n];
    }
  }

  /** The digits of the identifier, and the accumulator, an int throughout. */
  method IsValidWindowId(windowId: string) returns (ok: bool)
    ensures ok <==> Valid(windowId)
  {
    var num: int32 := 0;
    var begin, end := |PREFIX|, |windowId|;
    if !(PREFIX <= windowId) {
      return false;
    }
    if end <= begin {
      return false;
    }
    ghost var digits := windowId[begin..];
    var index := begin;
    while index < end
      invariant begin <= index <= end && num >= 0
      invariant AllDigits(digits[..index - begin]) && num == Value(digits[..index - begin])
    {
      var c := windowId[index];
      assert c == digits[index - begin];
      if !IsDigit(c) {
        return false;
      }
      var digit := DigitValue(c);
      assert digits[..index - begin + 1][..index - begin] == digits[..index - begin];
      assert Value(digits[..index - begin + 1]) == num * 10 + digit;
      if num > INT_MAX / 10 || (num == INT_MAX / 10 && digit > INT_MAX % 10) {
        if AllDigits(digits) {
          ValueGrows(digits, index - begin + 1);
        }
        return false;
      }
      var scaled: int32 := num * 10;
      num := digit + scaled;
      index := index + 1;
    }
    assert digits[..index - begin] == digits;
    return num > 0;
  }

  // ---- every window number has an identifier ----

  function Decimal(n: nat): (s: string)
    ensures AllDigits(s) && s != ""
  {
    var c := (n % 10 + '0' as int) as char;
    if n < 10 then [c] else Decimal(n / 10) + [c]
  }

  lemma {:induction false} DecimalValue(n: nat)
    ensures Value(Decimal(n)) == n
  {
    var s := Decimal(n);
    if n < 10 {
      assert s[..0] == "";
    } else {
      DecimalValue(n / 10);
      assert s[..|s| - 1] == Decimal(n / 10);
    }
  }

  /** The prefix followed by a number in decimal is accepted exactly if the number is within 1..INT_MAX. */
  lemma NumbersRoundTrip(n: nat)
    ensures Valid(PREFIX + Decimal(n)) <==> 1 <= n <= INT_MAX
  {
    DecimalValue(n);
    assert (PREFIX + Decimal(n))[|PREFIX|..] == Decimal(n);
  }
}
