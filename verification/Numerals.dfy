/** Decimal numerals: the model of `strconv.Itoa`, `strconv.FormatInt(_, 10)` and
    `strconv.Atoi`, which the server uses for recent ids, source ids, preset ids and entity tags. */
module Numerals {
  import opened Common

  const MAX_INT64: int := 0x7fff_ffff_ffff_ffff
  const MIN_INT64: int := -0x8000_0000_0000_0000

  predicate IsInt64(n: int) {
    MIN_INT64 <= n <= MAX_INT64
  }

  /** Two's-complement wrap-around of an addition on Go's 64-bit `int`. */
  function Wrap64(n: int): int {
    (n - MIN_INT64) % 0x1_0000_0000_0000_0000 + MIN_INT64
  }

  predicate IsDigit(c: char) {
    '0' <= c <= '9'
  }

  function DigitChar(d: nat): char
    requires d < 10
  {
    '0' + d as char
  }

  function DigitValue(c: char): nat
    requires IsDigit(c)
  {
    (c - '0') as nat
  }

  function Digits(n: nat): (s: string)
    ensures s != "" && forall i :: 0 <= i < |s| ==> IsDigit(s[i])
  {
    if n < 10 then [DigitChar(n)] else Digits(n / 10) + [DigitChar(n % 10)]
  }

  function Itoa(n: int): string {
    if n < 0 then "-" + Digits(-n) else Digits(n)
  }

  predicate AllDigits(s: string) {
    forall i :: 0 <= i < |s| ==> IsDigit(s[i])
  }

  function Value(s: string): nat
    requires AllDigits(s)
  {
    if s == "" then 0 else Value(s[..|s| - 1]) * 10 + DigitValue(s[|s| - 1])
  }

  /** A numeral with an optional sign, before the range check. */
  function ParseInt(s: string): Option<int> {
    if s == "" then None
    else if s[0] == '-' || s[0] == '+' then
      if s[1..] == "" || !AllDigits(s[1..]) then None
      else Some(if s[0] == '-' then -(Value(s[1..]) as int) else Value(s[1..]))
    else if AllDigits(s) then Some(Value(s))
    else None
  }

  /** `strconv.Atoi` succeeds exactly on signed numerals that fit the 64-bit `int`. */
  function Atoi(s: string): Option<int> {
    var p := ParseInt(s);
    if p.Some? && IsInt64(p.value) then p else None
  }

  lemma {:induction false} ValueOfDigits(n: nat)
    ensures Value(Digits(n)) == n
  {
    if n < 10 {
      assert Digits(n)[..0] == "";
    } else {
      ValueOfDigits(n / 10);
      assert Digits(n)[..|Digits(n)| - 1] == Digits(n / 10);
    }
  }

  lemma ParseDigits(n: nat)
    ensures ParseInt(Digits(n)) == Some(n) && ParseInt("-" + Digits(n)) == Some(-(n as int))
  {
    ValueOfDigits(n);
    var s := Digits(n);
    assert IsDigit(s[0]) && AllDigits(s);
    assert ("-" + s)[0] == '-' && ("-" + s)[1..] == s;
  }

  /** Parsing a printed integer gives it back, for every integer. */
  lemma {:induction false} ParseOfItoa(n: int)
    ensures ParseInt(Itoa(n)) == Some(n)
  {
    ParseDigits(if n < 0 then -n else n);
  }

  /** Which texts parse before the range check, and what they mean: digits, leading zeros allowed, behind
      at most one sign. */
  lemma {:induction false} ParseIntMeans(s: string, digits: string)
    requires digits != ""
    ensures AllDigits(digits) ==> ParseInt(digits) == Some(Value(digits)) == ParseInt("+" + digits)
    ensures AllDigits(digits) ==> ParseInt("-" + digits) == Some(-(Value(digits) as int))
    ensures ParseInt(s).Some? <==>
      exists d :: d != "" && AllDigits(d) && (s == d || s == "+" + d || s == "-" + d)
  {
    assert ("+" + digits)[1..] == digits && ("-" + digits)[1..] == digits;
    assert AllDigits(digits) ==> IsDigit(digits[0]);
    if ParseInt(s).Some? {
      var d := if s[0] == '-' || s[0] == '+' then s[1..] else s;
      assert s == d || s == "+" + d || s == "-" + d;
    }
    if d :| d != "" && AllDigits(d) && (s == d || s == "+" + d || s == "-" + d) {
      assert IsDigit(d[0]) && ("+" + d)[1..] == d && ("-" + d)[1..] == d;
    }
  }

  lemma {:induction false} LeadingZero(digits: string)
    requires AllDigits(digits)
    ensures Value("0" + digits) == Value(digits)
  {
    if digits != "" {
      var n := |digits| - 1;
      LeadingZero(digits[..n]);
      assert ("0" + digits)[..n + 1] == "0" + digits[..n];
    } else {
      assert ("0" + digits)[..0] == "";
    }
  }

  /** The range of Go's 64-bit `int`. */
  lemma {:induction false} AtoiInRange(s: string)
    ensures Atoi(s).Some? <==> ParseInt(s).Some? && -9223372036854775808 <= ParseInt(s).value <= 9223372036854775807
    ensures Atoi(s).Some? ==> Atoi(s) == ParseInt(s)
  {
  }

  lemma AtoiOfItoa(n: int)
    ensures Atoi(Itoa(n)) == if IsInt64(n) then Some(n) else None
  {
    ParseOfItoa(n);
  }

  lemma ItoaInjective(m: int, n: int)
    ensures Itoa(m) == Itoa(n) <==> m == n
  {
    ParseOfItoa(m);
    ParseOfItoa(n);
  }

  lemma ItoaNonEmpty(n: int)
    ensures Itoa(n) != ""
  {
  }
}
