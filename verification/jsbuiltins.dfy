/**
  The JavaScript built-ins the handlers lean on: `parseInt` called without a
  radix (meat.js:255, 261), the `Math.max(Math.min(v, max), min)` clamp
  (meat.js:257, 263), `String.prototype.length` in UTF-16 code units
  (meat.js:247, 360, 413), `toLowerCase` and `startsWith`.
 */
module JsBuiltins {
  import opened Wrappers

  // ---------------------------------------------------------------------------
  // parseInt(s) with the radix left undefined

  /** The value of `c` as a digit in base 36, if it is one. */
  function DigitValue(c: char): Option<nat> {
    if '0' <= c <= '9' then Some(c as int - '0' as int)
    else if 'a' <= c <= 'z' then Some(c as int - 'a' as int + 10)
    else if 'A' <= c <= 'Z' then Some(c as int - 'A' as int + 10)
    else None
  }

  predicate IsDigitIn(c: char, radix: nat) {
    DigitValue(c).Some? && DigitValue(c).value < radix
  }

  /** The longest prefix of `s` made of digits of `radix`. */
  function DigitPrefix(s: string, radix: nat): (r: string)
    ensures r <= s
    ensures forall i :: 0 <= i < |r| ==> IsDigitIn(r[i], radix)
    ensures |r| < |s| ==> !IsDigitIn(s[|r|], radix)
  {
    if |s| == 0 || !IsDigitIn(s[0], radix) then ""
    else [s[0]] + DigitPrefix(s[1..], radix)
  }

  /** The value of a digit string, most significant digit first. */
  function DigitsValue(ds: string, radix: nat): int
    requires forall i :: 0 <= i < |ds| ==> IsDigitIn(ds[i], radix)
  {
    if |ds| == 0 then 0
    else
      var last := |ds| - 1;
      var init := ds[..last];
      assert forall i :: 0 <= i < |init| ==> init[i] == ds[i];
      assert IsDigitIn(ds[last], radix);
      DigitsValue(init, radix) * radix + DigitValue(ds[last]).value
  }

  predicate HasHexPrefix(t: string) {
    |t| >= 2 && t[0] == '0' && (t[1] == 'x' || t[1] == 'X')
  }

  /** The text after an optional sign. */
  function Unsigned(s: string): string {
    if |s| > 0 && (s[0] == '-' || s[0] == '+') then s[1..] else s
  }

  /** The digit text and radix after the sign: a `0x`/`0X` prefix selects base 16. */
  function Digits(t: string): (string, nat) {
    if HasHexPrefix(t) then (t[2..], 16) else (t, 10)
  }

  /** `parseInt(s)`, `None` standing for `NaN`. Leading white space is not
      modelled: every argument reaching it has been reduced to `[A-Za-z0-9_-]`. */
  function ParseInt(s: string): (r: Option<int>)
    ensures |s| == 0 ==> r.None?
    ensures |s| > 0 && !IsDigitIn(s[0], 10) && s[0] != '-' && s[0] != '+' ==> r.None?
    ensures HasHexPrefix(s) && (|s| == 2 || !IsDigitIn(s[2], 16)) ==> r.None?
  {
    var (u, radix) := Digits(Unsigned(s));
    var ds := DigitPrefix(u, radix);
    if |ds| == 0 then None
    else if |s| > 0 && s[0] == '-' then Some(-DigitsValue(ds, radix))
    else Some(DigitsValue(ds, radix))
  }

  // ---------------------------------------------------------------------------
  // Reference renderings: decimal and hexadecimal literals

  function DigitChar(d: nat): (c: char)
    requires d < 16
    ensures DigitValue(c) == Some(d)
  {
    if d < 10 then ('0' as int + d) as char else ('a' as int + d - 10) as char
  }

  /** The digits of `n` in `radix`, most significant first, without leading zeros. */
  function Render(n: nat, radix: nat): (r: string)
    requires 2 <= radix <= 16
    ensures |r| > 0
    ensures forall i :: 0 <= i < |r| ==> IsDigitIn(r[i], radix)
    ensures r[0] == '0' ==> n == 0 && |r| == 1
    decreases n
  {
    if n < radix then [DigitChar(n)]
    else
      DivStep(n, radix);
      Render(n / radix, radix) + [DigitChar(n % radix)]
  }

  lemma DivStep(n: nat, radix: nat)
    requires 2 <= radix <= n
    ensures 1 <= n / radix < n
    ensures n % radix < radix
    ensures n == (n / radix) * radix + n % radix
  {
    var q, r := n / radix, n % radix;
    assert n == q * radix + r && 0 <= r < radix;
    assert q * radix > 0;
    assert q >= 1;
    assert q * radix == q * (radix - 2) + 2 * q;
    assert q * (radix - 2) >= 0;
  }

  /** `String(n)` for an integer `n`. */
  function Decimal(n: int): string {
    if n < 0 then "-" + Render(-n, 10) else Render(n, 10)
  }

  /** A hexadecimal literal for `n`, as `parseInt` accepts it. */
  function HexLiteral(n: int): string {
    (if n < 0 then "-" else "") + "0x" + Render(if n < 0 then -n else n, 16)
  }

  lemma {:induction false} RenderValue(n: nat, radix: nat)
    requires 2 <= radix <= 16
    ensures DigitsValue(Render(n, radix), radix) == n
    decreases n
  {
    var r := Render(n, radix);
    if n >= radix {
      DivStep(n, radix);
      RenderValue(n / radix, radix);
      assert r[..|r| - 1] == Render(n / radix, radix);
    }
  }

  lemma {:induction false} DigitPrefixOfDigits(s: string, radix: nat)
    requires forall i :: 0 <= i < |s| ==> IsDigitIn(s[i], radix)
    ensures DigitPrefix(s, radix) == s
  {
    if |s| > 0 {
      assert IsDigitIn(s[0], radix);
      DigitPrefixOfDigits(s[1..], radix);
      assert s == [s[0]] + s[1..];
    }
  }

  /** `parseInt` reads back every integer from its decimal rendering. */
  lemma ParseIntDecimal(n: int)
    ensures ParseInt(Decimal(n)) == Some(n)
  {
    var m := if n < 0 then -n else n;
    var digits := Render(m, 10);
    RenderValue(m, 10);
    DigitPrefixOfDigits(digits, 10);
    assert Unsigned(Decimal(n)) == digits by {
      if n < 0 {
        assert Decimal(n)[1..] == digits;
      }
    }
    assert Digits(digits) == (digits, 10);
  }

  /** Without a radix, `parseInt` reads a `0x` literal as hexadecimal. */
  lemma ParseIntHex(n: int)
    ensures ParseInt(HexLiteral(n)) == Some(n)
  {
    var m := if n < 0 then -n else n;
    var digits := Render(m, 16);
    RenderValue(m, 16);
    DigitPrefixOfDigits(digits, 16);
    var t := "0x" + digits;
    assert Unsigned(HexLiteral(n)) == t by {
      if n < 0 {
        assert HexLiteral(n)[1..] == t;
      } else {
        assert HexLiteral(n) == t;
      }
    }
    assert t[2..] == digits;
    assert Digits(t) == (digits, 16);
  }

  /** A decimal reading stops at the first non-digit: `parseInt("12abc")` and
      `parseInt("12x")` are 12. Only a lone `0` followed by `x` reads as hex. */
  lemma ParseIntStopsAtNonDigit(n: nat, tail: string)
    requires |tail| > 0 && !IsDigitIn(tail[0], 10)
    requires n != 0 || (tail[0] != 'x' && tail[0] != 'X')
    ensures ParseInt(Render(n, 10) + tail) == Some(n)
  {
    var digits := Render(n, 10);
    var s := digits + tail;
    RenderValue(n, 10);
    assert s[..|digits|] == digits;
    assert forall i :: 0 <= i < |digits| ==> IsDigitIn(s[i], 10) by {
      forall i | 0 <= i < |digits| ensures IsDigitIn(s[i], 10) {
        assert s[i] == digits[i];
      }
    }
    assert s[|digits|] == tail[0];
    assert !HasHexPrefix(s) by {
      if n != 0 { assert s[0] == digits[0]; }
    }
    PrefixUpTo(s, 10, |digits|);
    assert Unsigned(s) == s;
    assert Digits(s) == (s, 10);
  }

  lemma {:induction false} PrefixUpTo(s: string, radix: nat, k: nat)
    requires k < |s|
    requires forall i :: 0 <= i < k ==> IsDigitIn(s[i], radix)
    requires !IsDigitIn(s[k], radix)
    ensures DigitPrefix(s, radix) == s[..k]
    decreases k
  {
    if k > 0 {
      PrefixUpTo(s[1..], radix, k - 1);
      assert s[..k] == [s[0]] + s[1..][..k - 1];
    }
  }

  // ---------------------------------------------------------------------------
  // Math.max(Math.min(v, hi), lo)

  function Clamp(v: int, lo: int, hi: int): (r: int)
    ensures lo <= hi ==> lo <= r <= hi
    ensures lo <= v <= hi ==> r == v
    ensures lo <= hi && v > hi ==> r == hi
    ensures v < lo ==> r == lo
    ensures r == v || r == lo || r == hi
  {
    var m := if v < hi then v else hi;
    if m > lo then m else lo
  }

  // ---------------------------------------------------------------------------
  // Strings as JavaScript sees them

  /** `s.length`: characters outside the Basic Multilingual Plane take two
      UTF-16 code units. */
  function JsLength(s: string): (n: nat)
    ensures |s| <= n <= 2 * |s|
    ensures (forall i :: 0 <= i < |s| ==> s[i] as int < 0x10000) ==> n == |s|
  {
    if |s| == 0 then 0
    else (if s[0] as int >= 0x10000 then 2 else 1) + JsLength(s[1..])
  }

  /** `s.toLowerCase()` on ASCII letters. */
  function ToLower(s: string): (r: string)
    ensures |r| == |s|
  {
    if |s| == 0 then ""
    else [LowerChar(s[0])] + ToLower(s[1..])
  }

  function LowerChar(c: char): char {
    if 'A' <= c <= 'Z' then (c as int + 32) as char else c
  }

  /** `toLowerCase` maps each character on its own, and lower-case text is
      left as it is. */
  lemma {:induction false} ToLowerPointwise(s: string)
    ensures forall i :: 0 <= i < |s| ==> ToLower(s)[i] == LowerChar(s[i])
    ensures ToLower(ToLower(s)) == ToLower(s)
  {
    if |s| > 0 {
      ToLowerPointwise(s[1..]);
      assert ToLower(s) == [LowerChar(s[0])] + ToLower(s[1..]);
      assert LowerChar(LowerChar(s[0])) == LowerChar(s[0]);
      assert ToLower(ToLower(s)) == [LowerChar(LowerChar(s[0]))] + ToLower(ToLower(s)[1..]);
      assert ToLower(s)[1..] == ToLower(s[1..]);
    }
  }

  /** `s.startsWith(p)`. */
  predicate StartsWith(s: string, p: string) {
    p <= s
  }
}
