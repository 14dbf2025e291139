/** Transfer-rate options: "512", "16k", "3m". */
module Rate {
  import opened Bytes

  const INT64_MAX: int := 0x7fff_ffff_ffff_ffff

  predicate IsDigit(c: char) {
    '0' <= c <= '9'
  }

  predicate AllDigits(s: string) {
    forall i :: 0 <= i < |s| ==> IsDigit(s[i])
  }

  function DigitValue(c: char): nat
    requires IsDigit(c)
  {
    c as int - '0' as int
  }

  /** The number a string of digits writes, of any size. */
  function Number(s: string): nat
    requires AllDigits(s)
  {
    if s == "" then 0 else Number(s[..|s| - 1]) * 10 + DigitValue(s[|s| - 1])
  }

  lemma {:induction false} NumberGrows(s: string, k: nat)
    requires AllDigits(s) && k <= |s|
    ensures Number(s[..k]) <= Number(s)
    decreases |s| - k
  {
    if k == |s| {
      assert s[..k] == s;
    } else {
      NumberGrows(s, k + 1);
      assert s[..k + 1][..k] == s[..k];
    }
  }

  /** What digits stand for in the parser: their number if a signed 64-bit integer holds it. */
  ghost function Fits(s: string): int {
    if s != "" && AllDigits(s) && Number(s) <= INT64_MAX then Number(s) else -1
  }

  /** `ngx_atosz`: no value it computes on the way leaves the signed 64-bit range. */
  method NgxAtosz(line: string) returns (value: int)
    ensures value == Fits(line)
  {
    if |line| == 0 {
      return -1;
    }
    var cutoff := INT64_MAX / 10;
    var cutlim := INT64_MAX % 10;
    value := 0;
    var i := 0;
    while i < |line|
      invariant 0 <= i <= |line| && AllDigits(line[..i]) && value == Number(line[..i]) <= INT64_MAX
    {
      if line[i] < '0' || line[i] > '9' {
        return -1;
      }
      var digit := line[i] as int - '0' as int;
      assert line[..i + 1][..i] == line[..i];
      if AllDigits(line) {
        NumberGrows(line, i + 1);
      }
      if value >= cutoff && (value > cutoff || digit > cutlim) {
        assert value * 10 + digit > INT64_MAX;
        return -1;
      }
      assert 0 <= value * 10 <= INT64_MAX && value * 10 + digit <= INT64_MAX;
      value := value * 10 + digit;
      i := i + 1;
    }
    assert line[..i] == line;
  }

  datatype Size = Size(digits: string, scale: nat)

  /** A size is digits and an optional unit, the last character. */
  function Split(line: string): Size {
    if line == "" then Size("", 1)
    else
      var unit, front := line[|line| - 1], line[..|line| - 1];
      if unit == 'K' || unit == 'k' then Size(front, 1024)
      else if unit == 'M' || unit == 'm' then Size(front, 1024 * 1024)
      else Size(line, 1)
  }

  /** The exact value of a size string, if it has one that a signed 64-bit integer holds. */
  ghost function RateOf(line: string): Option<nat> {
    var s := Split(line);
    if s.digits != "" && AllDigits(s.digits) && Number(s.digits) * s.scale <= INT64_MAX
    then Some(Number(s.digits) * s.scale) else None
  }

  /** Digits alone, or with a unit in either case; anything else is no size. */
  lemma UnitsMean(digits: string, unit: char)
    ensures unit == 'k' || unit == 'K' ==> RateOf(digits + [unit]) == Scaled(digits, 0x400)
    ensures unit == 'm' || unit == 'M' ==> RateOf(digits + [unit]) == Scaled(digits, 0x10_0000)
    ensures IsDigit(unit) ==> RateOf(digits + [unit]) == Scaled(digits + [unit], 1)
    ensures !IsDigit(unit) && unit !in "kKmM" ==> RateOf(digits + [unit]) == None
  {
    var text := digits + [unit];
    assert text[..|text| - 1] == digits;
    if !IsDigit(unit) && unit !in "kKmM" {
      assert 'k' in "kKmM" && 'K' in "kKmM" && 'm' in "kKmM" && 'M' in "kKmM";
      assert !IsDigit(text[|text| - 1]);
    }
  }

  ghost function Scaled(digits: string, scale: nat): Option<nat> {
    if digits != "" && AllDigits(digits) && Number(digits) * scale <= INT64_MAX then Some(Number(digits) * scale)
    else None
  }

  method NgxParseSize(line: string) returns (size: int)
    ensures size == if RateOf(line).Some? then RateOf(line).value else -1
  {
    if |line| == 0 {
      return -1;
    }
    var len, max, scale := |line|, INT64_MAX, 1;
    match line[|line| - 1] {
      case 'K' => len, max, scale := len - 1, INT64_MAX / 1024, 1024;
      case 'k' => len, max, scale := len - 1, INT64_MAX / 1024, 1024;
      case 'M' => len, max, scale := len - 1, INT64_MAX / (1024 * 1024), 1024 * 1024;
      case 'm' => len, max, scale := len - 1, INT64_MAX / (1024 * 1024), 1024 * 1024;
      case _ =>
    }
    assert line[..|line|] == line;
    size := NgxAtosz(line[..len]);
    if size < 0 || size > max {
      return -1;
    }
    size := size * scale;
    assert size <= INT64_MAX;
  }

  /** The rate an option text stands for: an empty one is no limit. */
  ghost function FlagOf(text: string): Option<nat> {
    if text == "" then Some(0) else RateOf(text)
  }

  /** `AbslParseFlag`. */
  method ParseFlag(text: string) returns (rate: Option<nat>)
    ensures rate == FlagOf(text)
  {
    if text == "" {
      return Some(0);
    }
    var size := NgxParseSize(text);
    rate := if size < 0 then None else Some(size);
  }

  // ---------------------------------------------------------------- printing

  function Decimal(n: nat): string {
    if n < 10 then [('0' as int + n) as char] else Decimal(n / 10) + [('0' as int + n % 10) as char]
  }

  lemma {:induction false} DecimalNumber(n: nat)
    ensures |Decimal(n)| > 0 && AllDigits(Decimal(n)) && Number(Decimal(n)) == n
  {
    var s := Decimal(n);
    if n < 10 {
      assert s[..0] == "";
      assert Number(s) == Number(s[..0]) * 10 + DigitValue(s[0]);
    } else {
      DecimalNumber(n / 10);
      assert s[..|s| - 1] == Decimal(n / 10);
    }
  }

  /** The conversion of a rate to text: the largest unit that divides it. */
  function Print(rate: nat): string {
    if rate % 0x10_0000 == 0 then Decimal(rate / 0x10_0000) + "m"
    else if rate % 0x400 == 0 then Decimal(rate / 0x400) + "k"
    else Decimal(rate)
  }

  lemma UnitSplits(q: nat, unit: char, scale: nat)
    requires (unit == 'm' && scale == 0x10_0000) || (unit == 'k' && scale == 0x400)
    ensures Split(Decimal(q) + [unit]) == Size(Decimal(q), scale)
  {
    var text := Decimal(q) + [unit];
    assert text[..|text| - 1] == Decimal(q);
  }

  lemma PlainSplits(n: nat)
    ensures Decimal(n) != "" && Split(Decimal(n)) == Size(Decimal(n), 1)
  {
    DecimalNumber(n);
    assert IsDigit(Decimal(n)[|Decimal(n)| - 1]);
  }

  /** A printed rate splits into the digits of a quotient and its unit. */
  lemma PrintSplits(rate: nat)
    ensures var s := Split(Print(rate));
            Print(rate) != "" && s.digits != "" && AllDigits(s.digits) && Number(s.digits) * s.scale == rate
  {
    if rate % 0x10_0000 == 0 {
      UnitSplits(rate / 0x10_0000, 'm', 0x10_0000);
      DecimalNumber(rate / 0x10_0000);
    } else if rate % 0x400 == 0 {
      UnitSplits(rate / 0x400, 'k', 0x400);
      DecimalNumber(rate / 0x400);
    } else {
      PlainSplits(rate);
      DecimalNumber(rate);
    }
  }

  /** Printing and parsing again gives the rate back exactly for the rates the parser can hold. */
  lemma PrintParse(rate: nat)
    ensures RateOf(Print(rate)) == Some(rate) <==> rate <= INT64_MAX
    ensures RateOf(Print(rate)) == None <==> rate > INT64_MAX
  {
    PrintSplits(rate);
  }

  /** No two rates print alike, also of those the parser cannot hold. */
  lemma PrintInjective(a: nat, b: nat)
    requires Print(a) == Print(b)
    ensures a == b
  {
    PrintSplits(a);
    PrintSplits(b);
  }

  /** Parsing is stable under printing. */
  lemma ParsePrintParse(text: string)
    requires FlagOf(text).Some?
    ensures FlagOf(Print(FlagOf(text).value)) == FlagOf(text)
  {
    PrintSplits(FlagOf(text).value);
  }
}
