// Decimal text: how integers are printed on the wire, and the three readers that take them back
// (Rust's `str::parse`, the token reader of `tokenize.rs` and the helper's `strtol`).
module Decimal {
  import opened Common

  predicate IsDigit(c: char) {
    '0' <= c <= '9'
  }

  predicate AllDigits(s: string) {
    forall i :: 0 <= i < |s| ==> IsDigit(s[i])
  }

  function DigitValue(c: char): nat
    requires IsDigit(c)
  {
    c as int - '0' as int
  }

  function DigitChar(d: nat): char
    requires d < 10
  {
    ('0' as int + d) as char
  }

  /** The value of a digit string, most significant digit first. */
  function DigitsValue(s: string): nat
    requires AllDigits(s)
  {
    if s == [] then 0 else DigitsValue(s[..|s| - 1]) * 10 + DigitValue(s[|s| - 1])
  }

  function PrintNat(n: nat): string {
    if n < 10 then [DigitChar(n)] else PrintNat(n / 10) + [DigitChar(n % 10)]
  }

  function PrintInt(n: int): string {
    if n < 0 then "-" + PrintNat(-n) else PrintNat(n)
  }

  lemma {:induction false} PrintNatRoundTrip(n: nat)
    ensures PrintNat(n) != [] && AllDigits(PrintNat(n))
    ensures DigitsValue(PrintNat(n)) == n
  {
    if n >= 10 {
      PrintNatRoundTrip(n / 10);
      var s := PrintNat(n);
      assert s[..|s| - 1] == PrintNat(n / 10);
    } else {
      assert PrintNat(n)[..0] == [];
    }
  }

  // ----- Signed literals -----

  /** A leading sign and what follows it. */
  function SplitSign(s: string): (r: (bool, string)) {
    if s != [] && s[0] == '-' then (true, s[1..])
    else if s != [] && s[0] == '+' then (false, s[1..])
    else (false, s)
  }

  function Signed(negative: bool, n: nat): int {
    var v: int := n;
    if negative then -v else v
  }

  function ScanDigits(s: string): (n: nat)
    ensures n <= |s|
    ensures AllDigits(s[..n])
    ensures n < |s| ==> !IsDigit(s[n])
  {
    if s != [] && IsDigit(s[0]) then 1 + ScanDigits(s[1..]) else 0
  }

  predicate IsLiteral(s: string) {
    var (negative, digits) := SplitSign(s);
    digits != [] && AllDigits(digits)
  }

  /** The integer a literal denotes, whatever its size. */
  function LiteralValue(s: string): int
    requires IsLiteral(s)
  {
    Signed(SplitSign(s).0, DigitsValue(SplitSign(s).1))
  }

  /** `s.parse::<i64>()`: a whole literal within range. */
  function ParseI64(s: string): Option<int> {
    if IsLiteral(s) && I64_MIN <= LiteralValue(s) <= I64_MAX then Some(LiteralValue(s)) else None
  }

  /** `s.parse::<u32>()`: as above, but no minus sign is ever accepted. */
  function ParseU32(s: string): Option<int> {
    if IsLiteral(s) && !SplitSign(s).0 && LiteralValue(s) < 0x1_0000_0000 then Some(LiteralValue(s)) else None
  }

  lemma {:induction false} PrintIntIsLiteral(n: int)
    ensures IsLiteral(PrintInt(n)) && LiteralValue(PrintInt(n)) == n
    ensures SplitSign(PrintInt(n)).0 == (n < 0)
  {
    if n < 0 {
      PrintNatRoundTrip(-n);
      assert PrintInt(n)[1..] == PrintNat(-n);
    } else {
      PrintNatRoundTrip(n);
      assert IsDigit(PrintNat(n)[0]);
    }
  }

  // ----- The helper's strtol (cdecode.rs) -----

  predicate IsCSpace(c: char) {
    c == ' ' || c == '\t' || c == '\n' || c == 11 as char || c == 12 as char || c == '\r'
  }

  function SkipSpace(s: string): string {
    if s != [] && IsCSpace(s[0]) then SkipSpace(s[1..]) else s
  }

  function Clamp(n: int): i64 {
    if n > I64_MAX then I64_MAX else if n < I64_MIN then I64_MIN else n
  }

  /** What `strtol_full` promises: the literal's value, clamped to `long`, after leading blanks. */
  function StrtolValue(s: string): Option<int> {
    var t := SkipSpace(s);
    if IsLiteral(t) then Some(Clamp(LiteralValue(t))) else None
  }

  lemma ClampStep(negative: bool, n: nat, d: nat)
    requires d < 10
    ensures Clamp(Signed(negative, n * 10 + d))
            == Clamp(Clamp(Signed(negative, n)) * 10 + Signed(negative, d))
  {
  }

  method CheckedMulAdd(acc: i64, d: int) returns (r: Option<int>)
    ensures r == if I64_MIN <= acc * 10 <= I64_MAX && I64_MIN <= acc * 10 + d <= I64_MAX
                 then Some(acc * 10 + d) else None
  {
    if I64_MIN <= acc * 10 <= I64_MAX && I64_MIN <= acc * 10 + d <= I64_MAX {
      r := Some(acc * 10 + d);
    } else {
      r := None;
    }
  }

  /** `strtol_full`: the accumulator saturates on the first overflow and then stays there. */
  method StrtolFull(s: string) returns (r: Option<int>)
    ensures r == StrtolValue(s)
  {
    var t := SkipSpace(s);
    var (negative, digits) := SplitSign(t);
    if digits == [] || ScanDigits(digits) != |digits| {
      return None;
    }
    assert digits[..|digits|] == digits;
    var acc: i64 := 0;
    for i := 0 to |digits|
      invariant acc == Clamp(Signed(negative, DigitsValue(digits[..i])))
    {
      var d: int := DigitValue(digits[i]);
      assert digits[..i + 1][..i] == digits[..i];
      ClampStep(negative, DigitsValue(digits[..i]), d);
      var next := CheckedMulAdd(acc, if negative then -d else d);
      acc := match next case Some(v) => v case None => if negative then I64_MIN else I64_MAX;
    }
    assert digits[..|digits|] == digits;
    r := Some(acc);
  }

  /** A `long` stored into a C `int`. */
  function CInt(s: string): Option<int> {
    match StrtolValue(s)
    case Some(n) => Some(WrapI32(n))
    case None => None
  }

  lemma StrtolReadsPrinted(n: int)
    requires I64_MIN <= n <= I64_MAX
    ensures StrtolValue(PrintInt(n)) == Some(n) && ParseI64(PrintInt(n)) == Some(n)
    ensures 0 <= n < 0x1_0000_0000 ==> ParseU32(PrintInt(n)) == Some(n)
    ensures -0x8000_0000 <= n < 0x8000_0000 ==> CInt(PrintInt(n)) == Some(n)
  {
    PrintIntIsLiteral(n);
    LiteralHasNoBlank(PrintInt(n));
    NarrowingKeepsLowBits(n);
    hide PrintInt, IsLiteral, LiteralValue, SplitSign, SkipSpace, WrapI32;
  }

  /** A literal starts with a digit or a sign. */
  lemma LiteralHasNoBlank(s: string)
    requires IsLiteral(s)
    ensures SkipSpace(s) == s
  {
    assert s[0] in {'-', '+'} || IsDigit(s[0]);
  }
}
