/**
 * JavaScript numbers as the bag-name parser sees them, and the two string
 * conversions it uses: `Number(str)` (the whole string must be a literal)
 * and `parseInt(str)` (the longest integer prefix).
 */
module JsNumber {

  /** A JavaScript number: NaN, or a finite value. */
  datatype Number = NaN | Num(value: real)

  /** `!n`: NaN and zero are the falsy numbers. */
  predicate Falsy(n: Number)
  {
    n.NaN? || n.value == 0.0
  }

  /**
   * The white space and line terminators that `Number` and `parseInt` skip:
   * tab, vertical tab, form feed, the byte-order mark, every space separator
   * of Unicode category Zs, and the four line terminators.
   */
  predicate IsWhiteSpace(c: char)
  {
    c == '\t' || c == '\U{B}' || c == '\U{C}' || c == '\U{FEFF}'
    || IsSpaceSeparator(c)
    || c == '\n' || c == '\r' || c == '\U{2028}' || c == '\U{2029}'
  }

  /** The characters of Unicode general category Zs. */
  predicate IsSpaceSeparator(c: char)
  {
    c == ' ' || c == '\U{A0}' || c == '\U{1680}' || ('\U{2000}' <= c <= '\U{200A}')
    || c == '\U{202F}' || c == '\U{205F}' || c == '\U{3000}'
  }

  /** `s` without its leading white space. */
  function TrimStart(s: string): (t: string)
    ensures |t| <= |s| && t == s[|s| - |t|..]
    ensures |t| > 0 ==> !IsWhiteSpace(t[0])
    ensures forall i :: 0 <= i < |s| - |t| ==> IsWhiteSpace(s[i])
  {
    if |s| > 0 && IsWhiteSpace(s[0]) then
      var t := TrimStart(s[1..]);
      assert forall i :: 1 <= i < |s| - |t| ==> s[i] == s[1..][i - 1];
      t
    else s
  }

  /** `s` without its trailing white space. */
  function TrimEnd(s: string): (t: string)
    ensures |t| <= |s| && t == s[..|t|]
    ensures |t| > 0 ==> !IsWhiteSpace(t[|t| - 1])
    ensures forall i :: |t| <= i < |s| ==> IsWhiteSpace(s[i])
  {
    if |s| > 0 && IsWhiteSpace(s[|s| - 1]) then
      var t := TrimEnd(s[..|s| - 1]);
      assert forall i :: |t| <= i < |s| - 1 ==> s[i] == s[..|s| - 1][i];
      t
    else s
  }

  /** Digit value of a character in radix notation: `0`-`9`, then letters from 10; 36 for a non-digit. */
  function CharValue(c: char): nat
  {
    if '0' <= c <= '9' then c as int - '0' as int
    else if 'a' <= c <= 'z' then c as int - 'a' as int + 10
    else if 'A' <= c <= 'Z' then c as int - 'A' as int + 10
    else 36
  }

  predicate IsDigitIn(c: char, radix: nat)
  {
    CharValue(c) < radix
  }

  predicate AllDigitsIn(s: string, radix: nat)
  {
    forall i :: 0 <= i < |s| ==> IsDigitIn(s[i], radix)
  }

  /** The number the digits of `s` denote in base `radix`. */
  function DigitsValue(s: string, radix: nat): nat
    requires AllDigitsIn(s, radix)
    decreases |s|
  {
    if |s| == 0 then 0 else DigitsValue(s[..|s| - 1], radix) * radix + CharValue(s[|s| - 1])
  }

  /** Length of the longest prefix of `s` made of base-`radix` digits. */
  function DigitRun(s: string, radix: nat): (k: nat)
    ensures k <= |s|
    ensures AllDigitsIn(s[..k], radix)
    ensures k < |s| ==> !IsDigitIn(s[k], radix)
  {
    if |s| > 0 && IsDigitIn(s[0], radix) then 1 + DigitRun(s[1..], radix) else 0
  }

  function Pow10(n: nat): (p: nat)
    ensures p >= 1
  {
    if n == 0 then 1 else 10 * Pow10(n - 1)
  }

  predicate HasHexPrefix(s: string)
  {
    |s| >= 2 && s[0] == '0' && (s[1] == 'x' || s[1] == 'X')
  }

  function Negate(n: Number): Number
  {
    if n.NaN? then NaN else Num(-n.value)
  }

  /** Applies an optional leading `-` or `+` of `t` to what `body` reads from the rest. */
  function Signed(t: string, body: string -> Number): Number
  {
    if |t| > 0 && t[0] == '-' then Negate(body(t[1..]))
    else if |t| > 0 && t[0] == '+' then body(t[1..])
    else body(t)
  }

  /** The longest base-`radix` digit prefix of `w`, or NaN when `w` does not start with a digit. */
  function DigitPrefix(w: string, radix: nat): Number
  {
    var k := DigitRun(w, radix);
    if k == 0 then NaN else Num(DigitsValue(w[..k], radix) as real)
  }

  /** `parseInt` after the sign: base 16 after `0x`/`0X`, base 10 otherwise. */
  function UnsignedIntPrefix(u: string): Number
  {
    if HasHexPrefix(u) then DigitPrefix(u[2..], 16) else DigitPrefix(u, 10)
  }

  /**
   * `parseInt(s)` with no radix: skip leading white space, take a sign, switch
   * to base 16 after `0x`/`0X`, then read the longest digit prefix; NaN when
   * there is none. Whatever follows the prefix is ignored.
   */
  function ParseInt(s: string): Number
  {
    Signed(TrimStart(s), UnsignedIntPrefix)
  }

  /**
   * `Number(s)`: trim white space on both sides; the empty string is 0; a
   * `0x` literal is read in base 16; otherwise the whole text must be a signed
   * decimal literal with an optional fraction, or the result is NaN.
   */
  function ToNumber(s: string): Number
  {
    var t := TrimEnd(TrimStart(s));
    if |t| == 0 then Num(0.0)
    else if HasHexPrefix(t) then HexLiteral(t[2..])
    else Signed(t, UnsignedDecimal)
  }

  /** The digits of a `0x` literal: at least one, all hexadecimal. */
  function HexLiteral(h: string): Number
  {
    if |h| > 0 && AllDigitsIn(h, 16) then Num(DigitsValue(h, 16) as real) else NaN
  }

  /** An unsigned decimal literal `digits[.digits]` with at least one digit in all, or NaN. */
  function UnsignedDecimal(u: string): Number
  {
    var k := DigitRun(u, 10);
    if k == |u| then
      if k == 0 then NaN else Num(DigitsValue(u, 10) as real)
    else if u[k] != '.' then NaN
    else
      var f := u[k + 1..];
      if !AllDigitsIn(f, 10) || (k == 0 && |f| == 0) then NaN
      else Num(DigitsValue(u[..k], 10) as real + DigitsValue(f, 10) as real / Pow10(|f|) as real)
  }

  /** The decimal digits of `n`, most significant first, with no leading zero (JavaScript's `String(n)`). */
  function NatString(n: nat): (s: string)
    ensures |s| >= 1
    ensures AllDigitsIn(s, 10)
    decreases n
  {
    if n < 10 then ['0' + n as char] else NatString(n / 10) + ['0' + (n % 10) as char]
  }

  /** `String(n)` for an integer. */
  function IntString(n: int): string
  {
    if n < 0 then "-" + NatString(-n) else NatString(n)
  }

  /** Reading the digits of `n` back gives `n`. */
  lemma {:induction false} NatStringValue(n: nat)
    ensures DigitsValue(NatString(n), 10) == n
    decreases n
  {
    if n >= 10 {
      NatStringValue(n / 10);
      var s := NatString(n);
      assert s[..|s| - 1] == NatString(n / 10);
    }
  }

  /** A string of digits read to its end: the digit run covers it all. */
  lemma {:induction false} DigitRunOfDigits(s: string, radix: nat)
    requires AllDigitsIn(s, radix)
    ensures DigitRun(s, radix) == |s|
    decreases |s|
  {
    if |s| > 0 {
      DigitRunOfDigits(s[1..], radix);
    }
  }

  /** A string of digits, read as a prefix or as a whole decimal literal, is its value. */
  lemma DigitsRead(d: string)
    requires |d| > 0 && AllDigitsIn(d, 10)
    ensures UnsignedIntPrefix(d) == Num(DigitsValue(d, 10) as real)
    ensures UnsignedDecimal(d) == Num(DigitsValue(d, 10) as real)
  {
    DigitRunOfDigits(d, 10);
    NotHexPrefix(d);
    assert d[..|d|] == d;
    assert DigitPrefix(d, 10) == Num(DigitsValue(d, 10) as real);
  }

  /** A digit string never starts with `0x`. */
  lemma NotHexPrefix(d: string)
    requires AllDigitsIn(d, 10)
    ensures !HasHexPrefix(d)
  {
    if |d| >= 2 {
      assert IsDigitIn(d[1], 10);
    }
  }

  /** Leading white space trimming leaves a string that starts with a non-space alone. */
  lemma TrimStartKeeps(s: string)
    requires |s| > 0 && !IsWhiteSpace(s[0])
    ensures TrimStart(s) == s
  {
  }

  /** Trailing white space trimming leaves a string that ends with a non-space alone. */
  lemma TrimEndKeeps(s: string)
    requires |s| > 0 && !IsWhiteSpace(s[|s| - 1])
    ensures TrimEnd(s) == s
  {
  }

  /** `String(n)` is a digit string, with a minus sign in front when `n` is negative. */
  lemma IntStringShape(n: int)
    ensures var s := IntString(n);
      |s| > 0 && !IsWhiteSpace(s[0]) && !IsWhiteSpace(s[|s| - 1]) && !HasHexPrefix(s)
      && (n < 0 ==> s[0] == '-' && s[1..] == NatString(-n))
      && (n >= 0 ==> s == NatString(n) && s[0] != '-' && s[0] != '+')
  {
    var d := NatString(if n < 0 then -n else n);
    assert IsDigitIn(d[0], 10) && IsDigitIn(d[|d| - 1], 10);
    if |d| >= 2 {
      assert IsDigitIn(d[1], 10);
    }
  }

  /** `parseInt(String(n)) == n`: the integer parser inverts integer printing. */
  lemma ParseIntOfIntString(n: int)
    ensures ParseInt(IntString(n)) == Num(n as real)
  {
    var s := IntString(n);
    var m := if n < 0 then -n else n;
    IntStringShape(n);
    TrimStartKeeps(s);
    NatStringValue(m);
    DigitsRead(NatString(m));
  }

  /** `Number(String(n)) == n`: the whole-string parser also inverts integer printing. */
  lemma ToNumberOfIntString(n: int)
    ensures ToNumber(IntString(n)) == Num(n as real)
  {
    var s := IntString(n);
    var m := if n < 0 then -n else n;
    IntStringShape(n);
    TrimStartKeeps(s);
    TrimEndKeeps(s);
    NatStringValue(m);
    DigitsRead(NatString(m));
  }

  /** `parseInt` reads a prefix and `Number` the whole text: on "12abc" they disagree. */
  lemma PrefixVersusWholeString()
    ensures ParseInt("12abc") == Num(12.0)
    ensures ToNumber("12abc") == NaN
  {
    var s := "12abc";
    TrimStartKeeps(s);
    TrimEndKeeps(s);
    assert DigitRun(s, 10) == 2 by {
      assert DigitRun(s[2..], 10) == 0;
      assert s[1..][1..] == s[2..];
    }
    assert s[..2] == "12";
    assert DigitsValue("12", 10) == 12 by {
      assert "12"[..1] == "1";
      assert "1"[..0] == "";
    }
  }

  /** Every Unicode space separator counts as white space: `Number` reads "\u30005" as 5. */
  lemma ToNumberSkipsSpaceSeparator()
    ensures ToNumber("\U{3000}5") == Num(5.0)
  {
    var s := "\U{3000}5";
    assert s[1..] == "5";
    TrimStartKeeps("5");
    assert TrimStart(s) == "5";
    TrimEndKeeps("5");
    assert IntString(5) == "5";
    ToNumberOfIntString(5);
  }

  /** Leading white space plays no part in `Number`. */
  lemma ToNumberSkipsLeadingWhiteSpace(c: char, s: string)
    requires IsWhiteSpace(c)
    ensures ToNumber([c] + s) == ToNumber(s)
  {
    assert ([c] + s)[1..] == s;
  }

  /** Two edge cases: both parsers reject a missing number, and `Number` reads "" as 0. */
  lemma EmptyAndNonNumeric()
    ensures ToNumber("") == Num(0.0)
    ensures ParseInt("") == NaN
    ensures ToNumber("abc") == NaN
    ensures ParseInt("abc") == NaN
  {
    TrimStartKeeps("abc");
    TrimEndKeeps("abc");
    assert DigitRun("abc", 10) == 0;
  }
}
