/**
 * The JavaScript string and number primitives the scheduling code relies on:
 * integer rendering (`Number.prototype.toString`), `parseInt`, `padStart(2, '0')`,
 * `split`, `trim`, ASCII case mapping and the truncating remainder `%`.
 */
module Text {
  import opened Wrappers

  // ---------------------------------------------------------------------------
  // Digits and decimal rendering

  predicate IsDigit(c: char) { '0' <= c <= '9' }

  predicate AllDigits(s: string) { forall i :: 0 <= i < |s| ==> IsDigit(s[i]) }

  function DigitChar(d: nat): (c: char)
    requires d < 10
    ensures IsDigit(c) && DigitValue(c) == d
  {
    (d + '0' as int) as char
  }

  function DigitValue(c: char): nat
    requires IsDigit(c)
  {
    c as int - '0' as int
  }

  /** Decimal rendering of a non-negative integer, most significant digit first. */
  function NatToString(n: nat): (s: string)
    ensures |s| > 0 && AllDigits(s)
  {
    if n < 10 then [DigitChar(n)] else NatToString(n / 10) + [DigitChar(n % 10)]
  }

  /** `n.toString()` for an integer-valued JavaScript number. */
  function IntToString(n: int): string {
    if n < 0 then "-" + NatToString(-n) else NatToString(n)
  }

  /** Value of a string of decimal digits read left to right. */
  function DigitsValue(s: string): nat
    requires AllDigits(s)
  {
    if s == [] then 0 else DigitsValue(s[..|s| - 1]) * 10 + DigitValue(s[|s| - 1])
  }

  /** The longest prefix of `s` made of decimal digits. */
  function DigitPrefix(s: string): (p: string)
    ensures AllDigits(p) && |p| <= |s| && p == s[..|p|]
  {
    if s != [] && IsDigit(s[0]) then [s[0]] + DigitPrefix(s[1..]) else []
  }

  /**
   * `parseInt(s)` in base 10: an optional sign followed by the longest run of
   * digits; `None` stands for `NaN` (no digit at all).
   */
  function ParseInt(s: string): Option<int> {
    if s != [] && (s[0] == '-' || s[0] == '+') then
      var p := DigitPrefix(s[1..]);
      var v: int := DigitsValue(p);
      if p == [] then None else if s[0] == '-' then Some(-v) else Some(v)
    else
      var p := DigitPrefix(s);
      if p == [] then None else Some(DigitsValue(p))
  }

  lemma {:induction false} DigitPrefixOfDigits(s: string)
    requires AllDigits(s)
    ensures DigitPrefix(s) == s
  {
    if s != [] {
      DigitPrefixOfDigits(s[1..]);
    }
  }

  lemma {:induction false} DigitsValueOfNatToString(n: nat)
    ensures DigitsValue(NatToString(n)) == n
  {
    var s := NatToString(n);
    if n >= 10 {
      DigitsValueOfNatToString(n / 10);
      assert s[..|s| - 1] == NatToString(n / 10);
    }
  }

  /** A leading zero does not change the value of a digit string. */
  lemma {:induction false} DigitsValueLeadingZero(s: string)
    requires AllDigits(s)
    ensures AllDigits("0" + s) && DigitsValue("0" + s) == DigitsValue(s)
  {
    if s != [] {
      var t := "0" + s;
      assert t[..|t| - 1] == "0" + s[..|s| - 1];
      DigitsValueLeadingZero(s[..|s| - 1]);
    }
  }

  /** `parseInt` reads back what `toString` rendered. */
  lemma ParseIntOfIntToString(n: int)
    ensures ParseInt(IntToString(n)) == Some(n)
  {
    var m: nat := if n < 0 then -n else n;
    DigitPrefixOfDigits(NatToString(m));
    DigitsValueOfNatToString(m);
    if n < 0 {
      assert ("-" + NatToString(m))[1..] == NatToString(m);
    }
  }

  /** Decimal rendering is injective. */
  lemma IntToStringInjective(a: int, b: int)
    requires IntToString(a) == IntToString(b)
    ensures a == b
  {
    ParseIntOfIntToString(a);
    ParseIntOfIntToString(b);
  }

  // ---------------------------------------------------------------------------
  // Padding and the truncating remainder

  /** `s.padStart(2, '0')`. */
  function PadStart2(s: string): (r: string)
    ensures |s| >= 2 ==> r == s
    ensures |s| < 2 ==> |r| == 2 && r[2 - |s|..] == s && forall i :: 0 <= i < 2 - |s| ==> r[i] == '0'
  {
    if |s| == 0 then "00" else if |s| == 1 then "0" + s else s
  }

  /** A positive multiple of `b` is at least `b`. */
  lemma {:induction false} MultipleAtLeast(b: int, k: int)
    requires b > 0 && k >= 1
    ensures b * k >= b
  {
    if k > 1 {
      MultipleAtLeast(b, k - 1);
      assert b * k == b * (k - 1) + b;
    }
  }

  /** Dafny's remainder is the only `r` in `[0, b)` with `x == b * k + r`. */
  lemma RemainderUnique(x: int, b: int, k: int, r: int)
    requires b > 0 && 0 <= r < b && x == b * k + r
    ensures x % b == r
  {
    var q, m := x / b, x % b;
    assert b * (k - q) == m - r;
    if k > q {
      MultipleAtLeast(b, k - q);
    } else if k < q {
      MultipleAtLeast(b, q - k);
    }
  }

  /** Truncating a negative dividend: the Euclidean remainder shifted down by `b`, or 0. */
  lemma TruncatedRemainder(a: int, b: int)
    requires b > 0 && a < 0
    ensures -((-a) % b) == (if a % b == 0 then 0 else a % b - b)
  {
    var q, m := a / b, a % b;
    if m == 0 {
      RemainderUnique(-a, b, -q, 0);
    } else {
      assert -a == b * (-q - 1) + (b - m);
      RemainderUnique(-a, b, -q - 1, b - m);
    }
  }

  /** JavaScript's `a % b` for integers and `b > 0`: the remainder of division truncated toward zero, whose sign follows the dividend. */
  function JsRem(a: int, b: int): (r: int)
    requires b > 0
    ensures a >= 0 ==> r == a % b
    ensures a < 0 ==> r == (if a % b == 0 then 0 else a % b - b)
    ensures a < 0 ==> -b < r <= 0
  {
    if a >= 0 then a % b else TruncatedRemainder(a, b); -((-a) % b)
  }

  /** The truncated remainder completes division truncated toward zero. */
  lemma JsRemTruncates(a: int, b: int)
    requires b > 0
    ensures a == (if a >= 0 then a / b else -((-a) / b)) * b + JsRem(a, b)
  {
  }

  // ---------------------------------------------------------------------------
  // Splitting

  /** `s.split(c)[0]`: the text before the first `c`, or all of `s`. */
  function Before(s: string, c: char): (r: string)
    ensures c !in r && |r| <= |s| && r == s[..|r|]
  {
    if s == [] || s[0] == c then [] else [s[0]] + Before(s[1..], c)
  }

  /** The text after the first `c`, or `None` when `s` has no `c`. */
  function After(s: string, c: char): Option<string> {
    if s == [] then None else if s[0] == c then Some(s[1..]) else After(s[1..], c)
  }

  /** `s.split(c)[1]`: the second piece, `None` (undefined) when `s` has no `c`. */
  function SecondPiece(s: string, c: char): Option<string> {
    match After(s, c)
    case None => None
    case Some(rest) => Some(Before(rest, c))
  }

  lemma {:induction false} SplitAtFirst(a: string, c: char, b: string)
    requires c !in a
    ensures Before(a + [c] + b, c) == a
    ensures After(a + [c] + b, c) == Some(b)
  {
    if a != [] {
      assert (a + [c] + b)[1..] == a[1..] + [c] + b;
      SplitAtFirst(a[1..], c, b);
    } else {
      assert a + [c] + b == [c] + b;
    }
  }

  lemma {:induction false} SplitWithout(s: string, c: char)
    requires c !in s
    ensures Before(s, c) == s && After(s, c) == None
  {
    if s != [] {
      SplitWithout(s[1..], c);
    }
  }

  // ---------------------------------------------------------------------------
  // Case mapping and trimming

  function LowerChar(c: char): char {
    if 'A' <= c <= 'Z' then (c as int + 32) as char else c
  }

  function UpperChar(c: char): char {
    if 'a' <= c <= 'z' then (c as int - 32) as char else c
  }

  /** `s.toUpperCase()` on the ASCII letters the labels use. */
  function Upper(s: string): (r: string)
    ensures |r| == |s| && forall i :: 0 <= i < |s| ==> r[i] == UpperChar(s[i])
  {
    seq(|s|, i requires 0 <= i < |s| => UpperChar(s[i]))
  }

  /** `s.toLowerCase() === "pm"`. */
  predicate IsPmWord(s: string) {
    |s| == 2 && LowerChar(s[0]) == 'p' && LowerChar(s[1]) == 'm'
  }

  /** The characters `String.prototype.trim` removes (white space and line terminators). */
  predicate IsJsSpace(c: char) {
    c == ' ' || c == '\t' || c == '\n' || c == '\r' || c == '\U{000B}' || c == '\U{000C}'
    || c == '\U{00A0}' || c == '\U{1680}' || ('\U{2000}' <= c <= '\U{200A}')
    || c == '\U{2028}' || c == '\U{2029}' || c == '\U{202F}' || c == '\U{205F}'
    || c == '\U{3000}' || c == '\U{FEFF}'
  }

  function TrimStart(s: string): (r: string)
    ensures |r| <= |s| && r == s[|s| - |r|..]
    ensures r != [] ==> !IsJsSpace(r[0])
  {
    if s != [] && IsJsSpace(s[0]) then TrimStart(s[1..]) else s
  }

  function TrimEnd(s: string): (r: string)
    ensures |r| <= |s| && r == s[..|r|]
    ensures r != [] ==> !IsJsSpace(r[|r| - 1])
  {
    if s != [] && IsJsSpace(s[|s| - 1]) then TrimEnd(s[..|s| - 1]) else s
  }

  /** `s.trim()`. */
  function Trim(s: string): string {
    TrimEnd(TrimStart(s))
  }

  /** A string trims to nothing exactly when every character of it is white space. */
  lemma {:induction false} TrimEmptyIffBlank(s: string)
    ensures Trim(s) == [] <==> forall i :: 0 <= i < |s| ==> IsJsSpace(s[i])
  {
    if s != [] && IsJsSpace(s[0]) {
      TrimEmptyIffBlank(s[1..]);
      assert forall i :: 1 <= i < |s| ==> s[i] == s[1..][i - 1];
    } else if s != [] {
      TrimEndKeepsNonSpace(s);
    }
  }

  /** A string that starts with a non-space character does not trim to nothing. */
  lemma NonBlankStart(s: string)
    requires s != [] && !IsJsSpace(s[0])
    ensures Trim(s) != []
  {
    assert TrimStart(s) == s;
    TrimEndKeepsNonSpace(s);
  }

  lemma {:induction false} TrimEndKeepsNonSpace(s: string)
    requires s != [] && !IsJsSpace(s[0])
    ensures TrimEnd(s) != []
  {
    if |s| > 1 && IsJsSpace(s[|s| - 1]) {
      TrimEndKeepsNonSpace(s[..|s| - 1]);
    }
  }
}
