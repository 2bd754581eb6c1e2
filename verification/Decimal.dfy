/** Decimal text: what strconv.FormatUint, ParseUint and Atoi do in base 10. */
module Decimal {

  datatype Result<+T> = Ok(value: T) | Err

  predicate IsDigit(c: char) {
    '0' <= c <= '9'
  }

  predicate AllDigits(s: string) {
    forall i :: 0 <= i < |s| ==> IsDigit(s[i])
  }

  function Print(n: nat): (s: string)
    ensures s != [] && AllDigits(s)
  {
    var digit := ('0' as int + n % 10) as char;
    if n < 10 then [digit] else Print(n / 10) + [digit]
  }

  function Value(s: string): nat
    requires AllDigits(s)
  {
    if s == [] then 0 else 10 * Value(s[..|s| - 1]) + (s[|s| - 1] as int - '0' as int)
  }

  function ParseUint(s: string, limit: nat): Result<nat> {
    if s == [] || !AllDigits(s) then Err
    else if Value(s) >= limit then Err
    else Ok(Value(s))
  }

  const INT64_LIMIT: nat := 0x8000_0000_0000_0000

  /** One optional sign, then digits; out of range is an error. */
  function Atoi(s: string): Result<int> {
    if s != [] && s[0] == '-' then
      match ParseUint(s[1..], INT64_LIMIT + 1)
      case Ok(n) => Ok(-(n as int))
      case Err => Err
    else if s != [] && s[0] == '+' then ParseUint(s[1..], INT64_LIMIT)
    else ParseUint(s, INT64_LIMIT)
  }

  ghost function PowerOfTen(k: nat): nat {
    if k == 0 then 1 else 10 * PowerOfTen(k - 1)
  }

  /** A digit string is read in base 10: the digits are worth their distance from zero, and a part its place. */
  lemma {:induction false} ValuePositional(a: string, b: string)
    requires AllDigits(a) && AllDigits(b)
    ensures AllDigits(a + b) && Value(a + b) == Value(a) * PowerOfTen(|b|) + Value(b)
    ensures |a| == 1 ==> Value(a) == a[0] as int - '0' as int
  {
    if b == [] {
      assert a + b == a;
    } else {
      var init, d := b[..|b| - 1], b[|b| - 1] as int - '0' as int;
      ValuePositional(a, init);
      assert (a + b)[..|a + b| - 1] == a + init;
      TenTimes(Value(a), PowerOfTen(|init|), Value(init), d);
    }
  }

  lemma TenTimes(v: nat, p: nat, w: nat, d: int)
    ensures 10 * (v * p + w) + d == v * (10 * p) + (10 * w + d)
  {
  }

  /** A printed number has no superfluous leading zero. */
  lemma {:induction false} PrintCanonical(n: nat)
    ensures Print(n)[0] == '0' ==> n == 0
  {
    if n >= 10 {
      PrintCanonical(n / 10);
    }
  }

  lemma {:induction false} PrintValue(n: nat)
    ensures Value(Print(n)) == n
  {
    if n >= 10 {
      PrintValue(n / 10);
      assert Print(n)[..|Print(n)| - 1] == Print(n / 10);
    }
  }

  /** Parsing a printed number gives it back, and an error exactly when it is out of range. */
  lemma ParsePrinted(n: nat, limit: nat)
    ensures ParseUint(Print(n), limit) == if n < limit then Ok(n) else Err
  {
    PrintValue(n);
  }

  lemma AtoiPrinted(n: nat)
    ensures Atoi(Print(n)) == if n < INT64_LIMIT then Ok(n as int) else Err
  {
    PrintValue(n);
    assert IsDigit(Print(n)[0]);
  }
}
