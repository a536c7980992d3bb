// Number printing of libs/printfmt.c, do_div of libs/x86.h and strtol of libs/string.c.
module Numerals {

  const WORD: int := 0x1_0000_0000

  // ---- machine arithmetic ----

  // Conversion to a 32-bit signed integer.
  function Int32(x: int): int {
    var w := x % WORD;
    if w >= WORD / 2 then w - WORD else w
  }

  lemma ModShift(x: int, k: int)
    ensures (x + k * WORD) % WORD == x % WORD
  {
    var q, r := x / WORD, x % WORD;
    assert x + k * WORD == (q + k) * WORD + r;
    ModUnique(x + k * WORD, q + k, r);
  }

  lemma ModUnique(x: int, q: int, r: int)
    requires x == q * WORD + r && 0 <= r < WORD
    ensures x % WORD == r && x / WORD == q
  {
  }

  // Reducing a number to 32 bits does not change the reduction of what is computed from it.
  lemma Int32Steps(a: int, b: int, d: int)
    ensures Int32(Int32(a) * b + d) == Int32(a * b + d) && Int32(-Int32(a)) == Int32(-a)
  {
    var k := (a - Int32(a)) / WORD;
    assert a == Int32(a) + k * WORD by {
      assert a == a / WORD * WORD + a % WORD;
      ModUnique(a - a % WORD, a / WORD, 0);
      ModUnique(a - a % WORD + WORD, a / WORD + 1, 0);
    }
    assert a * b + d == Int32(a) * b + d + (k * b) * WORD;
    ModShift(Int32(a) * b + d, k * b);
    assert -a == -Int32(a) + (-k) * WORD;
    ModShift(-Int32(a), -k);
  }

  // divl: the two-word dividend high:low by base; the processor faults unless the quotient fits.
  function Divl(high: nat, low: nat, base: nat): (qr: (nat, nat))
    requires high < base && low < WORD
  {
    ((high * WORD + low) / base, (high * WORD + low) % base)
  }

  lemma DivMod(n: int, b: int, q: int, r: int)
    requires b > 0 && n == q * b + r && 0 <= r < b
    ensures n / b == q && n % b == r
  {
    var k := q - n / b;
    assert k * b == n % b - r;
    assert (k >= 1 ==> k * b >= b) && (k <= -1 ==> k * b <= -b);
  }

  // The quotient that divl leaves fits in a word.
  lemma DivlFits(high: nat, low: nat, base: nat)
    requires high < base && low < WORD
    ensures var qr := Divl(high, low, base); qr.0 < WORD && high * WORD + low == qr.0 * base + qr.1 && 0 <= qr.1 < base
  {
    var n := high * WORD + low;
    assert n < base * WORD by { assert (high + 1) * WORD <= base * WORD; }
    var q := n / base;
    assert q * base <= n;
    assert q >= WORD ==> q * base >= WORD * base;
  }

  // do_div: two 32-bit divisions give the exact quotient and remainder of a 64-bit number.
  method DoDiv(n: nat, base: nat) returns (quotient: nat, mod: nat)
    requires n < WORD * WORD && 0 < base < WORD
    ensures quotient == n / base && mod == n % base
  {
    var low, high := n % WORD, n / WORD;
    var upper := high;
    if high != 0 {
      upper := high % base;
      high := high / base;
    }
    UpperBelow(n / WORD, base, upper);
    var qr := Divl(upper, low, base);
    LongDivision(n, base, high, upper, low);
    quotient, mod := high * WORD + qr.0, qr.1;
  }

  lemma UpperBelow(h: nat, base: nat, upper: int)
    requires base > 0 && upper == (if h != 0 then h % base else h)
    ensures 0 <= upper < base
  {
  }

  lemma LongDivision(n: nat, base: nat, high: int, upper: nat, low: nat)
    requires base > 0 && low == n % WORD && upper < base && low < WORD
    requires var h := n / WORD; if h != 0 then high == h / base && upper == h % base else high == 0 && upper == 0
    ensures high >= 0
    ensures var qr := Divl(upper, low, base); qr.0 < WORD && high * WORD + qr.0 == n / base && qr.1 == n % base
  {
    DivlFits(upper, low, base);
    var h, qr := n / WORD, Divl(upper, low, base);
    hide Divl;
    SameColumn(h, base, high, upper);
    Columns(h, high, upper, low, base, qr.0, qr.1);
    DivMod(n, base, high * WORD + qr.0, qr.1);
  }

  lemma SameColumn(h: nat, base: nat, high: int, upper: int)
    requires base > 0 && if h != 0 then high == h / base && upper == h % base else high == 0 && upper == 0
    ensures h == high * base + upper && high >= 0
  {
  }

  // Long division in two columns.
  lemma Columns(h: int, high: int, upper: int, low: int, base: int, q: int, mod: int)
    requires h == high * base + upper && upper * WORD + low == q * base + mod
    ensures h * WORD + low == (high * WORD + q) * base + mod
  {
  }

  // ---- digits ----

  const DIGITS := "0123456789abcdef"

  function Digits(n: nat, base: nat): string
    requires 2 <= base <= 16
    decreases n
  {
    (if n >= base then Digits(n / base, base) else "") + [DIGITS[n % base]]
  }

  function Repeat(c: char, k: int): string
    decreases k
  {
    if k <= 0 then "" else [c] + Repeat(c, k - 1)
  }

  function Padded(s: string, width: int, padc: char): string {
    Repeat(padc, width - |s|) + s
  }

  // What strtol takes a character for; -1 is no digit.
  function Value(c: char): int {
    if '0' <= c <= '9' then c as int - '0' as int
    else if 'a' <= c <= 'z' then c as int - 'a' as int + 10
    else if 'A' <= c <= 'Z' then c as int - 'A' as int + 10
    else -1
  }

  predicate IsDigit(c: char, base: int) { 0 <= Value(c) < base }

  function Eval(s: string, base: int): int {
    if s == "" then 0 else Eval(s[..|s| - 1], base) * base + Value(s[|s| - 1])
  }

  // Digits above 9 are small letters.
  ghost predicate LowerCase(s: string) {
    forall i :: 0 <= i < |s| ==> '0' <= s[i] <= '9' || 'a' <= s[i] <= 'f'
  }

  lemma LowerSnoc(s: string, c: char)
    requires (s == "" || LowerCase(s)) && LowerCase([c])
    ensures LowerCase(s + [c])
  {
    assert [c][0] == c;
  }

  lemma DigitValue(d: nat, base: nat)
    requires d < base <= 16
    ensures Value(DIGITS[d]) == d && IsDigit(DIGITS[d], base) && (d > 0 ==> DIGITS[d] != '0') && LowerCase([DIGITS[d]])
  {
  }

  lemma Quotient(n: nat, base: nat)
    requires base >= 2
    ensures n == n / base * base + n % base && 0 <= n % base < base
    ensures n >= base ==> 0 < n / base < n
    ensures n < base ==> n % base == n
  {
    var q := n / base;
    assert q > 0 ==> q * base >= q * 2;
    assert q <= 0 ==> q * base <= 0;
  }

  lemma EvalEmpty(base: int)
    ensures Eval("", base) == 0
  {
  }

  lemma EvalSnoc(s: string, c: char, base: int)
    ensures Eval(s + [c], base) == Eval(s, base) * base + Value(c)
  {
    assert (s + [c])[..|s|] == s;
  }

  ghost predicate Numeral(s: string, base: int) {
    (forall i :: 0 <= i < |s| ==> IsDigit(s[i], base)) && |s| > 0
  }

  lemma NumeralSnoc(s: string, c: char, base: int)
    requires (s == "" || Numeral(s, base)) && IsDigit(c, base)
    ensures Numeral(s + [c], base)
  {
  }

  // The number that printnum has left to print after k calls.
  ghost function Left(n: int, base: int, k: nat): int
    requires base > 0
    decreases k
  {
    if k == 0 then n else Left(n / base, base, k - 1)
  }

  // printnum stops calling itself if and only if the base is at least 2 or the number is 0.
  lemma PrintnumEnds(n: nat, base: nat)
    requires base > 0
    ensures (exists k: nat :: Left(n, base, k) < base) <==> base >= 2 || n == 0
  {
    if base >= 2 {
      LeftSmall(n, base);
    } else {
      forall k: nat ensures Left(n, base, k) == n { LeftSame(n, k); }
      assert Left(n, base, 0) == n;
    }
  }

  lemma {:induction false} LeftSmall(n: nat, base: nat)
    requires base >= 2
    ensures exists k: nat :: Left(n, base, k) < base
    decreases n
  {
    if n < base {
      assert Left(n, base, 0) < base;
    } else {
      Quotient(n, base);
      LeftSmall(n / base, base);
      var k: nat :| Left(n / base, base, k) < base;
      assert Left(n, base, k + 1) < base;
    }
  }

  lemma {:induction false} LeftSame(n: nat, k: nat)
    ensures Left(n, 1, k) == n
  {
    if k > 0 { LeftSame(n, k - 1); }
  }

  // The digits of a number evaluate to it.
  lemma {:induction false} DigitsEval(n: nat, base: nat)
    requires 2 <= base <= 16
    ensures Eval(Digits(n, base), base) == n && Numeral(Digits(n, base), base)
    ensures |Digits(n, base)| > 0 && (n > 0 ==> Digits(n, base)[0] != '0') && LowerCase(Digits(n, base))
    decreases n
  {
    Quotient(n, base);
    var q, d := n / base, n % base;
    DigitValue(d, base);
    hide Numeral, Eval, IsDigit, Value, LowerCase;
    if n >= base {
      DigitsEval(q, base);
      EvalSnoc(Digits(q, base), DIGITS[d], base);
      NumeralSnoc(Digits(q, base), DIGITS[d], base);
      LowerSnoc(Digits(q, base), DIGITS[d]);
    } else {
      EvalSnoc("", DIGITS[d], base);
      NumeralSnoc("", DIGITS[d], base);
      EvalEmpty(base);
      LowerSnoc("", DIGITS[d]);
    }
  }

  lemma {:induction false} RepeatFacts(c: char, k: int)
    ensures |Repeat(c, k)| == if k > 0 then k else 0
    ensures forall i :: 0 <= i < |Repeat(c, k)| ==> Repeat(c, k)[i] == c
    ensures Repeat(c, k) + [c] == [c] + Repeat(c, k)
    decreases k
  {
    if k > 0 { RepeatFacts(c, k - 1); }
  }

  // Leading zeros do not count.
  lemma {:induction false} EvalZeros(k: int, s: string, base: int)
    ensures Eval(Repeat('0', k) + s, base) == Eval(s, base)
    decreases |s|, k
  {
    var z := Repeat('0', k);
    RepeatFacts('0', k);
    if s != "" {
      assert (z + s)[..|z + s| - 1] == z + s[..|s| - 1];
      EvalZeros(k, s[..|s| - 1], base);
    } else if k > 0 {
      RepeatFacts('0', k - 1);
      assert z + s == Repeat('0', k - 1) + ['0'];
      assert (z + s)[..|z + s| - 1] == Repeat('0', k - 1) + "";
      EvalZeros(k - 1, "", base);
    } else {
      assert z + s == "";
    }
  }

  // ---- printing ----

  // %d, %u, %o, %x and %p
  datatype Conversion = D | U | O | X | P

  function BaseOf(conv: Conversion): int {
    match conv
    case D => 10
    case U => 10
    case O => 8
    case X => 16
    case P => 16
  }

  function Magnitude(v: int): nat { if v < 0 then -v else v }

  function Prefix(conv: Conversion, v: int): string {
    if conv == D && v < 0 then "-" else if conv == P then "0x" else ""
  }

  // The text of a number: the sign or the prefix, then the padded digits.
  function Image(conv: Conversion, v: int, width: int, padc: char): string {
    Prefix(conv, v) + Padded(Digits(Magnitude(v), BaseOf(conv)), width, padc)
  }

  // The characters put out so far.
  class Console {
    var out: string

    constructor ()
      ensures out == ""
    {
      out := "";
    }

    method Put(c: char)
      modifies this
      ensures out == old(out) + [c]
    {
      out := out + [c];
    }

    // Pad characters before the first digit.
    method Pad(width: int, padc: char)
      modifies this
      ensures out == old(out) + Repeat(padc, width - 1)
    {
      var w := width - 1;
      ghost var done := 0;
      while w > 0
        invariant done >= 0 && (w >= 0 || done == 0) && w + done == width - 1 && out == old(out) + Repeat(padc, done)
      {
        RepeatFacts(padc, done);
        Put(padc);
        w, done := w - 1, done + 1;
        assert Repeat(padc, done) == [padc] + Repeat(padc, done - 1);
      }
      RepeatFacts(padc, done);
    }

    // printnum
    method PrintNum(num: nat, base: nat, width: int, padc: char)
      requires num < WORD * WORD && 2 <= base <= 16
      modifies this
      ensures out == old(out) + Padded(Digits(num, base), width, padc)
      decreases num
    {
      var result, mod := DoDiv(num, base);
      Quotient(num, base);
      if num >= base {
        PrintNum(result, base, width - 1, padc);
      } else {
        Pad(width, padc);
      }
      Put(DIGITS[mod]);
      PaddedStep(num, base, width, padc);
    }

    // The numeric conversions of vprintfmt, once the flags and the field width are known.
    method PrintNumber(conv: Conversion, v: int, width: int, padc: char)
      requires if conv == D then -WORD * WORD / 2 <= v < WORD * WORD / 2 else 0 <= v < WORD * WORD
      modifies this
      ensures out == old(out) + Image(conv, v, width, padc)
    {
      hide Padded, Digits, Repeat;
      var num: nat;
      var base := 10;
      match conv {
        case D =>
          if v < 0 {
            Put('-');
            num := -v;
          } else {
            num := v;
          }
        case U =>
          num := v;
        case O =>
          num, base := v, 8;
        case P =>
          Put('0');
          Put('x');
          num, base := v, 16;
        case X =>
          num, base := v, 16;
      }
      PrintNum(num, base, width, padc);
    }
  }

  // One more digit on the right.
  lemma PaddedStep(num: nat, base: nat, width: int, padc: char)
    requires 2 <= base <= 16
    ensures Padded(Digits(num, base), width, padc) ==
      (if num >= base then Padded(Digits(num / base, base), width - 1, padc)
        else Repeat(padc, width - 1)) + [DIGITS[num % base]]
  {
    if num >= base {
      var f := Digits(num / base, base);
      assert Digits(num, base) == f + [DIGITS[num % base]];
      assert Repeat(padc, width - |f| - 1) + (f + [DIGITS[num % base]]) == Repeat(padc,
          width - 1 - |f|) + f + [DIGITS[num % base]];
    }
  }

  // ---- parsing ----

  // Reading past the end finds the terminator.
  function At(s: string, i: nat): char {
    if i < |s| then s[i] else '\0'
  }

  predicate Blank(c: char) { c == ' ' || c == '\t' }

  function SkipBlanks(s: string, i: nat): nat
    decreases |s| - i
  {
    if i < |s| && Blank(s[i]) then SkipBlanks(s, i + 1) else i
  }

  function SkipDigits(s: string, i: nat, base: int): (e: nat)
    requires i <= |s|
    ensures i <= e <= |s| && forall j :: i <= j < e ==> IsDigit(s[j], base)
    ensures e < |s| ==> !IsDigit(s[e], base)
    decreases |s| - i
  {
    if i < |s| && IsDigit(s[i], base) then SkipDigits(s, i + 1, base) else i
  }

  function SkipSign(s: string, i: nat): nat {
    if At(s, i) == '+' || At(s, i) == '-' then i + 1 else i
  }

  predicate HexPrefix(s: string, i: nat, base: int) {
    (base == 0 || base == 16) && At(s, i) == '0' && At(s, i + 1) == 'x'
  }

  predicate OctalPrefix(s: string, i: nat, base: int) {
    base == 0 && At(s, i) == '0' && !HexPrefix(s, i, base)
  }

  function DigitsStart(s: string, i: nat, base: int): nat {
    if HexPrefix(s, i, base) then i + 2 else if OctalPrefix(s, i, base) then i + 1 else i
  }

  function RealBase(s: string, i: nat, base: int): int {
    if HexPrefix(s, i, base) then 16 else if OctalPrefix(s, i, base) then 8 else if base == 0 then 10 else base
  }

  lemma StartsInside(s: string, base: int)
    ensures SkipBlanks(s, 0) <= SkipSign(s, SkipBlanks(s, 0)) <= |s|
    ensures SkipSign(s, SkipBlanks(s, 0)) <= DigitsStart(s, SkipSign(s, SkipBlanks(s, 0)), base) <= |s|
  {
    BlanksInside(s, 0);
  }

  lemma {:induction false} BlanksInside(s: string, i: nat)
    requires i <= |s|
    ensures i <= SkipBlanks(s, i) <= |s|
    decreases |s| - i
  {
    if i < |s| && Blank(s[i]) { BlanksInside(s, i + 1); }
  }

  // What strtol stands for: the value, reduced to 32 bits, and where the number ends.
  function Parse(s: string, base: int): (int, nat) {
    var i := SkipBlanks(s, 0);
    var j := SkipSign(s, i);
    StartsInside(s, base);
    var k, b := DigitsStart(s, j, base), RealBase(s, j, base);
    var e := SkipDigits(s, k, b);
    var val := Eval(s[k..e], b);
    (Int32(if At(s, i) == '-' then -val else val), e)
  }

  // strtol
  method Strtol(s: string, base0: int) returns (val: int, end: nat)
    ensures (val, end) == Parse(s, base0)
  {
    StartsInside(s, base0);
    var i, neg, base := Front(s, base0);
    val, end := DigitLoop(s, i, base);
    if neg {
      Int32Steps(Eval(s[i..end], base), 1, 0);
      val := Int32(-val);
    }
  }

  // White space, sign and base prefix.
  method Front(s: string, base0: int) returns (i: nat, neg: bool, base: int)
    ensures neg <==> At(s, SkipBlanks(s, 0)) == '-'
    ensures var j := SkipSign(s, SkipBlanks(s, 0)); i == DigitsStart(s, j, base0) && base == RealBase(s, j, base0)
  {
    i := 0;
    base := base0;
    while At(s, i) == ' ' || At(s, i) == '\t'
      invariant i <= |s| && SkipBlanks(s, 0) == SkipBlanks(s, i)
      decreases |s| - i
    {
      i := i + 1;
    }
    assert i == SkipBlanks(s, 0);
    hide SkipBlanks;
    neg := false;
    if At(s, i) == '+' {
      i := i + 1;
    } else if At(s, i) == '-' {
      i, neg := i + 1, true;
    }
    assert i == SkipSign(s, SkipBlanks(s, 0));
    hide SkipSign;
    if (base == 0 || base == 16) && At(s, i) == '0' && At(s, i + 1) == 'x' {
      i, base := i + 2, 16;
    } else if base == 0 && At(s, i) == '0' {
      i, base := i + 1, 8;
    } else if base == 0 {
      base := 10;
    }
  }

  lemma DigitStop(s: string, i: nat, base: int)
    requires i <= |s| && !IsDigit(At(s, i), base)
    ensures SkipDigits(s, i, base) == i
  {
  }

  lemma DigitStep(s: string, start: nat, i: nat, base: int)
    requires start <= i <= |s| && IsDigit(At(s, i), base)
    ensures i < |s| && SkipDigits(s, i + 1, base) == SkipDigits(s, i, base)
    ensures Int32(Int32(Eval(s[start..i], base)) * base + Value(At(s, i))) == Int32(Eval(s[start..i + 1], base))
  {
    assert i < |s| && SkipDigits(s, i + 1, base) == SkipDigits(s, i, base);
    hide Int32, Eval, SkipDigits, Value, IsDigit;
    assert s[start..i + 1] == s[start..i] + [s[i]];
    EvalSnoc(s[start..i], s[i], base);
    Int32Steps(Eval(s[start..i], base), base, Value(s[i]));
  }

  // The digit a character stands for, -1 for the characters that end the loop.
  method DigitOf(c: char) returns (dig: int)
    ensures dig == Value(c)
  {
    if '0' <= c <= '9' {
      dig := c as int - '0' as int;
    } else if 'a' <= c <= 'z' {
      dig := c as int - 'a' as int + 10;
    } else if 'A' <= c <= 'Z' {
      dig := c as int - 'A' as int + 10;
    } else {
      dig := -1;
    }
  }

  // The loop over the digits, in 32-bit arithmetic.
  method DigitLoop(s: string, start: nat, base: int) returns (val: int, i: nat)
    requires start <= |s|
    ensures i == SkipDigits(s, start, base) && val == Int32(Eval(s[start..i], base))
  {
    i := start;
    val := 0;
    assert s[start..i] == "";
    EvalEmpty(base);
    assert Int32(0) == 0;
    hide Int32, Eval, Value, SkipDigits;
    while true
      invariant start <= i <= |s| && SkipDigits(s, i, base) == SkipDigits(s, start, base)
      invariant val == Int32(Eval(s[start..i], base))
      decreases |s| - i
    {
      var c := At(s, i);
      var dig := DigitOf(c);
      if dig < 0 || dig >= base {
        DigitStop(s, i, base);
        break;
      }
      DigitStep(s, start, i, base);
      i, val := i + 1, Int32(val * base + dig);
    }
  }

  // ---- printing and parsing ----

  ghost predicate AllBlank(s: string) { forall i :: 0 <= i < |s| ==> s[i] == ' ' || s[i] == '\t' }

  lemma {:induction false} SkipAll(blanks: string, s: string, i: nat)
    requires i <= |blanks| && AllBlank(blanks) && (s != "" ==> !Blank(s[0]))
    ensures SkipBlanks(blanks + s, i) == |blanks|
    decreases |blanks| - i
  {
    if i < |blanks| {
      assert (blanks + s)[i] == blanks[i];
      SkipAll(blanks, s, i + 1);
    }
  }

  lemma {:induction false} SkipNumeral(s: string, i: nat, base: int)
    requires i <= |s| && forall j :: i <= j < |s| ==> IsDigit(s[j], base)
    ensures SkipDigits(s, i, base) == |s|
    decreases |s| - i
  {
    if i < |s| { SkipNumeral(s, i + 1, base); }
  }

  lemma NumeralZeros(k: int, s: string, base: int)
    requires Numeral(s, base) && base >= 2
    ensures Numeral(Repeat('0', k) + s, base)
  {
    RepeatFacts('0', k);
  }

  // What may stand in front of the digits of base, when strtol is asked for base0: 0x for 16 and, if it
  // is to find out the base, 0 for 8 and nothing for 10.
  ghost predicate Announces(prefix: string, body: string, base0: int, base: int) {
    && 2 <= base && (forall i :: 0 <= i < |body| ==> IsDigit(body[i], base))
    && ((prefix == "" && body != "" && base0 == base)
        || (prefix == "0x" && base == 16 && (base0 == 0 || base0 == 16))
        || (prefix == "0" && base == 8 && base0 == 0)
        || (prefix == "" && body != "" && base == 10 && base0 == 0 && body[0] != '0'))
  }

  // White space, a sign, the prefix of the base and digits are read to the end, and the digits count.
  lemma ParseNumeral(blanks: string, sign: string, prefix: string, body: string, base0: int, base: int)
    requires AllBlank(blanks) && (sign == "" || sign == "+" || sign == "-") && Announces(prefix, body, base0, base)
    ensures var s := blanks + (sign + (prefix + body));
      Parse(s, base0) == (Int32(if sign == "-" then -Eval(body, base) else Eval(body, base)), |s|)
  {
    var s, j := blanks + (sign + (prefix + body)), |blanks| + |sign|;
    hide *;
    Layout(blanks, sign, prefix, body, base0, base);
    DigitsAt(s, j, prefix, body, base0, base);
    ParseAt(s, |blanks|, j, j + |prefix|, base0, base);
  }

  // Parse, once the parts of the text are known.
  lemma ParseAt(s: string, i: nat, j: nat, k: nat, base0: int, base: int)
    requires i == SkipBlanks(s, 0) && j == SkipSign(s, i) && k == DigitsStart(s, j, base0) && k <= |s|
    requires base == RealBase(s, j, base0) && SkipDigits(s, k, base) == |s|
    ensures Parse(s, base0) == (Int32(if At(s, i) == '-' then -Eval(s[k..], base) else Eval(s[k..], base)), |s|)
  {
    hide SkipBlanks, SkipSign, SkipDigits, Eval, Int32, DigitsStart, RealBase;
    StartsInside(s, base0);
    assert s[k..|s|] == s[k..];
  }

  lemma Layout(blanks: string, sign: string, prefix: string, body: string, base0: int, base: int)
    requires AllBlank(blanks) && (sign == "" || sign == "+" || sign == "-") && Announces(prefix, body, base0, base)
    ensures var s, n := blanks + (sign + (prefix + body)), |blanks|;
      SkipBlanks(s, 0) == n && SkipSign(s, n) == n + |sign| && (At(s, n) == '-' <==> sign == "-")
    ensures (blanks + (sign + (prefix + body)))[|blanks| + |sign|..] == prefix + body
  {
    var front := sign + (prefix + body);
    FrontFacts(sign, prefix, body, base0, base);
    hide SkipBlanks, Announces, Blank;
    SkipAll(blanks, front, 0);
    TailOf(blanks, sign, prefix + body);
    assert (blanks + front)[|blanks|] == front[0];
  }

  lemma FrontFacts(sign: string, prefix: string, body: string, base0: int, base: int)
    requires (sign == "" || sign == "+" || sign == "-") && Announces(prefix, body, base0, base)
    ensures var f := sign + (prefix + body);
      f != "" && !Blank(f[0]) && (f[0] == '+' <==> sign == "+") && (f[0] == '-' <==> sign == "-")
  {
    var rest := prefix + body;
    assert rest != "" && rest[0] == if prefix == "" then body[0] else '0';
    assert sign == "" ==> sign + rest == rest;
    assert prefix == "" ==> IsDigit(body[0], base);
  }

  lemma TailOf(a: string, b: string, c: string)
    ensures (a + (b + c))[|a| + |b|..] == c
  {
  }

  // Behind the sign: the prefix is taken off, the base is known, and all the rest are digits.
  lemma DigitsAt(s: string, j: nat, prefix: string, body: string, base0: int, base: int)
    requires j <= |s| && s[j..] == prefix + body && Announces(prefix, body, base0, base)
    ensures var k := j + |prefix|;
      k <= |s| && DigitsStart(s, j, base0) == k && RealBase(s, j, base0) == base && s[k..] == body &&
      SkipDigits(s, k, base) == |s|
  {
    var k, rest := j + |prefix|, prefix + body;
    assert |rest| == |s| - j && forall i :: j <= i < |s| ==> s[i] == rest[i - j];
    assert s[k..] == body && forall i :: k <= i < |s| ==> s[i] == body[i - k];
    assert !IsDigit('x', 8) && !IsDigit('x', 10) && !IsDigit('x', 16);
    SkipNumeral(s, k, base);
    assert prefix == "" ==> rest == body;
    hide SkipDigits;
    PrefixAt(s, j, prefix, body, base0, base);
  }

  lemma PrefixAt(s: string, j: nat, prefix: string, body: string, base0: int, base: int)
    requires j <= |s| && s[j..] == prefix + body && Announces(prefix, body, base0, base)
    ensures HexPrefix(s, j, base0) <==> prefix == "0x"
    ensures OctalPrefix(s, j, base0) <==> prefix == "0"
  {
    var rest := prefix + body;
    assert |rest| == |s| - j && forall i :: j <= i < |s| ==> s[i] == rest[i - j];
    assert !IsDigit('x', 8) && !IsDigit('x', 10) && !IsDigit('x', 16);
    if prefix == "" {
      assert rest == body && At(s, j) == body[0];
      assert |body| > 1 ==> At(s, j + 1) == body[1];
    } else if prefix == "0" {
      assert At(s, j) == '0' && (body != "" ==> At(s, j + 1) == body[0]);
    } else {
      assert At(s, j) == '0' && At(s, j + 1) == 'x';
    }
  }

  // ---- the round trip ----

  // Padded digits of n behind a sign are read back as a numeral that evaluates to n.
  lemma PaddedNumeral(n: nat, base: int, width: int, padc: char) returns (body: string)
    requires 2 <= base <= 16 && (padc == '0' || width <= |Digits(n, base)|)
    ensures Padded(Digits(n, base), width, padc) == body && Numeral(body, base) && Eval(body, base) == n
  {
    hide Digits, Numeral, Eval, Value;
    var digits := Digits(n, base);
    var k := width - |digits|;
    DigitsEval(n, base);
    NumeralZeros(k, digits, base);
    EvalZeros(k, digits, base);
    body := Repeat('0', k) + digits;
    assert k <= 0 ==> Repeat(padc, k) == Repeat('0', k);
  }

  // A numeral behind blanks, or behind a minus sign.
  lemma ParsePlain(s: string, front: string, body: string, base: int, negative: bool)
    requires Numeral(body, base) && 2 <= base && s == front + body
    requires if negative then front == "-" else AllBlank(front)
    ensures Parse(s, base) == (Int32(if negative then -Eval(body, base) else Eval(body, base)), |s|)
  {
    hide *;
    Plain(body, base);
    NoBlanks();
    if negative {
      Empties("-", body);
      ParseNumeral("", "-", "", body, base, base);
    } else {
      Empties("", body);
      ParseNumeral(front, "", "", body, base, base);
    }
  }

  // The digits padc and width put in front of them, read back: blanks in front of the sign only, zeros,
  // or nothing at all.
  lemma ReadableZeros(conv: Conversion, v: int, width: int, padc: char)
    requires conv != P && (conv == D || v >= 0) && (padc == '0' || width <= |Digits(Magnitude(v), BaseOf(conv))|)
    ensures Parse(Image(conv, v, width, padc), BaseOf(conv)) == (Int32(v), |Image(conv, v, width, padc)|)
  {
    hide *;
    SignOf(conv, v);
    var n, base := Magnitude(v), BaseOf(conv);
    var body := PaddedNumeral(n, base, width, padc);
    NoBlanks();
    ImageIs(conv, v, width, padc);
    ParsePlain(Image(conv, v, width, padc), Prefix(conv, v), body, base, v < 0);
  }

  lemma Plain(body: string, base: int)
    requires Numeral(body, base) && 2 <= base
    ensures Announces("", body, base, base)
  {
  }

  lemma Empties(a: string, b: string)
    ensures "" + (a + ("" + b)) == a + b && "" + b == b
  {
    assert "" + b == b;
  }

  lemma NoBlanks()
    ensures AllBlank("")
  {
  }

  lemma SignOf(conv: Conversion, v: int)
    requires conv != P && (conv == D || v >= 0)
    ensures (Prefix(conv, v) == "" || Prefix(conv, v) == "-") && (Prefix(conv, v) == "-" <==> v < 0)
    ensures (v < 0 ==> v + Magnitude(v) == 0) && (v >= 0 ==> v == Magnitude(v)) && 2 <= BaseOf(conv) <= 16
  {
  }

  lemma ImageIs(conv: Conversion, v: int, width: int, padc: char)
    ensures Image(conv, v, width, padc) == Prefix(conv, v) + Padded(Digits(Magnitude(v), BaseOf(conv)), width, padc)
  {
  }

  lemma ReadableBlanks(conv: Conversion, v: int, width: int)
    requires conv != P && v >= 0
    ensures Parse(Image(conv, v, width, ' '), BaseOf(conv)) == (Int32(v), |Image(conv, v, width, ' ')|)
  {
    hide *;
    SignOf(conv, v);
    var base := BaseOf(conv);
    var digits := Digits(v, base);
    var blanks := Repeat(' ', width - |digits|);
    DigitsEval(v, base);
    ImageBlanks(conv, v, width);
    BlanksRepeat(width - |digits|);
    ParsePlain(Image(conv, v, width, ' '), blanks, digits, base, false);
  }

  lemma BlanksRepeat(k: int)
    ensures AllBlank(Repeat(' ', k))
  {
    RepeatFacts(' ', k);
    hide Repeat;
  }

  lemma ImageBlanks(conv: Conversion, v: nat, width: int)
    requires conv != P
    ensures var digits := Digits(v, BaseOf(conv)); Image(conv, v, width, ' ') == Repeat(' ', width - |digits|) + digits
  {
    hide Digits, Repeat;
    assert Prefix(conv, v) == "" && Magnitude(v) == v;
  }

  // Pad characters that are no digits stop strtol where they stand behind a sign.
  lemma Stuck(k: int, padc: char, digits: string, base: int)
    requires k > 0 && 2 <= base <= 16 && digits != "" && (padc == ' ' || padc == '-')
    ensures var s := "-" + (Repeat(padc, k) + digits); Parse(s, base).1 == 1 < |s|
  {
    RepeatFacts(padc, k);
    hide Repeat;
    StuckAt("-" + (Repeat(padc, k) + digits), padc, base);
  }

  lemma StuckPads(k: int, digits: string, base: int)
    requires k > 1 && 2 <= base <= 16
    ensures var s := Repeat('-', k) + digits; Parse(s, base).1 == 1 < |s|
  {
    RepeatFacts('-', k);
    hide Repeat;
    StuckAt(Repeat('-', k) + digits, '-', base);
  }

  lemma StuckAt(s: string, c: char, base: int)
    requires |s| > 1 && s[0] == '-' && s[1] == c && (c == ' ' || c == '-') && 2 <= base <= 16
    ensures Parse(s, base).1 == 1
  {
    assert !IsDigit(c, base);
  }

  // A negative number with pad characters behind the sign.
  lemma Unreadable(v: int, width: int, padc: char)
    requires v < 0 && width > |Digits(Magnitude(v), 10)| && (padc == ' ' || padc == '-')
    ensures Parse(Image(D, v, width, padc), 10).1 == 1 < |Image(D, v, width, padc)|
  {
    hide Parse, Image, Repeat, Eval, Numeral, LowerCase;
    var digits := Digits(Magnitude(v), 10);
    DigitsEval(Magnitude(v), 10);
    ImageIs(D, v, width, padc);
    hide Digits;
    Stuck(width - |digits|, padc, digits, 10);
  }

  // The flag '-' pads on the left, with minus signs: one is read as the sign of the number, two or more
  // stop strtol at once.
  lemma MinusPads(conv: Conversion, v: int, width: int)
    requires conv != P && v >= 0 && width > |Digits(v, BaseOf(conv))|
    ensures var s, base, k := Image(conv, v, width, '-'), BaseOf(conv), width - |Digits(v, BaseOf(conv))|;
      && (k == 1 ==> Parse(s, base) == (Int32(-v), |s|))
      && (k > 1 ==> Parse(s, base).1 == 1 < |s|)
  {
    hide *;
    SignOf(conv, v);
    MinusImage(conv, v, width);
    var base := BaseOf(conv);
    var digits := Digits(v, base);
    MinusRead(Image(conv, v, width, '-'), v, digits, width - |digits|, base);
  }

  lemma MinusRead(s: string, v: int, digits: string, k: int, base: int)
    requires v >= 0 && 2 <= base <= 16 && k > 0 && digits == Digits(v, base) && s == Repeat('-', k) + digits
    ensures k == 1 ==> Parse(s, base) == (Int32(-v), |s|)
    ensures k > 1 ==> Parse(s, base).1 == 1 < |s|
  {
    hide *;
    OneMinus();
    DigitsEval(v, base);
    if k == 1 {
      ParsePlain(s, "-", digits, base, true);
    } else {
      StuckPads(k, digits, base);
    }
  }

  lemma MinusImage(conv: Conversion, v: nat, width: int)
    requires conv != P
    ensures var digits := Digits(v, BaseOf(conv)); Image(conv, v, width, '-') == Repeat('-', width - |digits|) + digits
  {
    hide Digits, Repeat;
    assert Prefix(conv, v) == "" && Magnitude(v) == v;
  }

  lemma OneMinus()
    ensures Repeat('-', 1) == "-"
  {
    assert Repeat('-', 0) == "";
  }

  lemma Fits(v: int)
    ensures Int32(v) == v <==> -0x8000_0000 <= v < 0x8000_0000
  {
  }

  // The padding with which a printed number can be read: none, zeros, blanks in front of a number
  // without a sign; and one minus sign in front of 0.
  ghost predicate GoodPadding(v: int, digits: int, width: int, padc: char) {
    width <= digits || padc == '0' || (padc == ' ' && v >= 0) || (padc == '-' && v == 0 && width == digits + 1)
  }

  // Printing then parsing, in base 16 for %x, 8 for %o and 10 for %u and %d, is the identity exactly for
  // the numbers of 32 bits with such a padding.
  lemma PrintThenParse(conv: Conversion, v: int, width: int, padc: char, base: int)
    requires conv != P && (conv == D || v >= 0) && (padc == ' ' || padc == '0' || padc == '-')
    requires base == if conv == X then 16 else if conv == O then 8 else 10
    ensures Parse(Image(conv, v, width, padc), base) == (v, |Image(conv, v, width, padc)|)
      <==> -0x8000_0000 <= v < 0x8000_0000 &&
           GoodPadding(v, |Digits(if v < 0 then -v else v, base)|, width, padc)
  {
    Fits(v);
    Fits(-v);
    assert base == BaseOf(conv) && Magnitude(v) == if v < 0 then -v else v;
    hide Parse, Image, Digits, Int32;
    var n := |Digits(Magnitude(v), base)|;
    if width <= n || padc == '0' {
      ReadableZeros(conv, v, width, padc);
    } else if v < 0 {
      Unreadable(v, width, padc);
    } else if padc == ' ' {
      ReadableBlanks(conv, v, width);
    } else {
      MinusPads(conv, v, width);
    }
  }

  // %p: strtol finds the base by the prefix, and the number as a signed one, unless there is padding
  // other than zeros behind the prefix.
  lemma PointerRoundTrip(v: nat, width: int, padc: char)
    requires v < 0x1_0000_0000 && (padc == ' ' || padc == '0' || padc == '-')
    ensures Parse(Image(P, v, width, padc), 0) ==
      (if v < 0x8000_0000 then v else v - 0x1_0000_0000, |Image(P, v, width, padc)|)
      <==> padc == '0' || width <= |Digits(v, 16)|
  {
    var s := Image(P, v, width, padc);
    ImageIs(P, v, width, padc);
    if padc == '0' || width <= |Digits(v, 16)| {
      var body := PaddedNumeral(v, 16, width, padc);
      assert Announces("0x", body, 0, 16);
      hide *;
      NoBlanks();
      Empties("", "0x" + body);
      ParseNumeral("", "", "0x", body, 0, 16);
      SignedWord(v);
    } else {
      PointerStuck(v, width, padc);
    }
  }

  lemma SignedWord(v: nat)
    requires v < 0x1_0000_0000
    ensures Int32(v) == if v < 0x8000_0000 then v else v - 0x1_0000_0000
  {
  }

  lemma PointerStuck(v: nat, width: int, padc: char)
    requires width > |Digits(v, 16)| && (padc == ' ' || padc == '-')
    ensures Parse(Image(P, v, width, padc), 0).1 == 2 < |Image(P, v, width, padc)|
  {
    var digits, k := Digits(v, 16), width - |Digits(v, 16)|;
    DigitsEval(v, 16);
    RepeatFacts(padc, k);
    hide Digits, Repeat, Parse;
    var s := "0x" + (Repeat(padc, k) + digits);
    assert s == Image(P, v, width, padc);
    HexStuck(s, padc);
  }

  lemma HexStuck(s: string, c: char)
    requires |s| > 2 && s[0] == '0' && s[1] == 'x' && s[2] == c && (c == ' ' || c == '-')
    ensures Parse(s, 0).1 == 2
  {
    assert !IsDigit(c, 16);
  }

  // The two functions run one after the other.
  method PrintAndParse(conv: Conversion, v: int, width: int, padc: char, base: int) returns (val: int, all: bool)
    requires conv != P && (padc == ' ' || padc == '0' || padc == '-')
    requires if conv == D then -WORD * WORD / 2 <= v < WORD * WORD / 2 else 0 <= v < WORD * WORD
    requires base == if conv == X then 16 else if conv == O then 8 else 10
    ensures val == v && all <==> -0x8000_0000 <= v < 0x8000_0000 &&
                                 GoodPadding(v, |Digits(if v < 0 then -v else v, base)|, width, padc)
  {
    PrintThenParse(conv, v, width, padc, base);
    var console := new Console();
    console.PrintNumber(conv, v, width, padc);
    hide Parse, Image, Digits;
    var end;
    assert console.out == Image(conv, v, width, padc);
    val, end := Strtol(console.out, base);
    all := end == |console.out|;
  }
}
