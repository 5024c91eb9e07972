/** The wrappers used throughout the model. */
module Wrappers {
  datatype Option<+T> = None | Some(value: T)

  /** The result of a call into code outside the model: a value, or an exception. */
  datatype Call<+T> = Returned(value: T) | Threw
}

/**
 * The small pieces of JavaScript semantics that the route handlers and
 * components rely on: truthiness of `||` chains, template-literal
 * stringification, `String.prototype.slice` / `Array.prototype.slice`,
 * `padEnd`, `Number.parseInt` without a radix, the decimal rendering of a
 * non-negative integer and the UTF-8 length that `Buffer.from` produces.
 */
module JsSemantics {
  import opened Wrappers

  /** A JavaScript value as it reaches this code from a JSON body or a database row. */
  datatype JsValue = Undefined | Null | Str(s: string)

  /** `undefined`, `null` and `""` are falsy; every other string is truthy. */
  predicate Truthy(v: JsValue) {
    v.Str? && v.s != ""
  }

  /** JavaScript `a || b`: `a` when it is truthy, otherwise `b` (even a falsy `b`). */
  function Or(a: JsValue, b: JsValue): (r: JsValue)
    ensures Truthy(r) <==> Truthy(a) || Truthy(b)
    ensures Truthy(a) ==> r == a
    ensures !Truthy(a) ==> r == b
  {
    if Truthy(a) then a else b
  }

  /** What `${v}` inside a template literal produces. */
  function TemplateText(v: JsValue): (r: string)
    ensures v.Str? ==> r == v.s
    ensures v.Undefined? ==> r == "undefined"
    ensures v.Null? ==> r == "null"
  {
    match v
    case Undefined => "undefined"
    case Null => "null"
    case Str(s) => s
  }

  // ---------------------------------------------------------------------
  // slice

  /** How `slice` turns an integer argument into a position in a sequence of length `len`. */
  function RelativeIndex(x: int, len: nat): (r: nat)
    ensures r <= len
    ensures x >= 0 ==> r == if x < len then x else len
    ensures x < 0 ==> r == if len + x > 0 then len + x else 0
  {
    if x < 0 then (if len + x > 0 then len + x else 0)
    else if x < len then x
    else len
  }

  /** `s.slice(start, end)` for integer arguments, on strings and arrays alike. */
  function Slice<T>(s: seq<T>, start: int, end: int): (r: seq<T>)
    ensures var from, to := RelativeIndex(start, |s|), RelativeIndex(end, |s|);
      |r| == (if from < to then to - from else 0) &&
      forall i :: 0 <= i < |r| ==> r[i] == s[from + i]
  {
    var from, to := RelativeIndex(start, |s|), RelativeIndex(end, |s|);
    if from < to then s[from..to] else []
  }

  /** `ToIntegerOrInfinity` on the result of `parseInt`: NaN becomes 0. */
  function NaNToZero(n: Option<int>): (r: int)
    ensures n.Some? ==> r == n.value
    ensures n.None? ==> r == 0
  {
    if n.Some? then n.value else 0
  }

  // ---------------------------------------------------------------------
  // padEnd

  /** `s.padEnd(n, fill)` for a one-character fill string. */
  function PadEnd(s: string, n: nat, fill: char): (r: string)
    ensures |r| == if |s| < n then n else |s|
    ensures r[..|s|] == s
    ensures forall i :: |s| <= i < |r| ==> r[i] == fill
  {
    if |s| >= n then s else s + seq(n - |s|, _ => fill)
  }

  // ---------------------------------------------------------------------
  // Number.parseInt(s) with no radix argument

  /** The white space and line terminators that `parseInt` skips before the number. */
  predicate IsJsWhiteSpace(c: char) {
    c == '\t' || c == '\n' || c == '\U{000B}' || c == '\U{000C}' || c == '\r' || c == ' ' ||
    c == '\U{00A0}' || c == '\U{1680}' || ('\U{2000}' <= c <= '\U{200A}') ||
    c == '\U{2028}' || c == '\U{2029}' || c == '\U{202F}' || c == '\U{205F}' ||
    c == '\U{3000}' || c == '\U{FEFF}'
  }

  function TrimStart(s: string): (r: string)
    ensures |r| <= |s| && r == s[|s| - |r|..]
    ensures r == [] || !IsJsWhiteSpace(r[0])
    ensures s != [] && !IsJsWhiteSpace(s[0]) ==> r == s
  {
    if s != [] && IsJsWhiteSpace(s[0]) then TrimStart(s[1..]) else s
  }

  /** The value of `c` as a digit in bases up to 36, or 36 when it is no digit at all. */
  function DigitValue(c: char): (v: nat)
    ensures v <= 36
    ensures '0' <= c <= '9' ==> v == c as int - '0' as int
  {
    if '0' <= c <= '9' then c as int - '0' as int
    else if 'a' <= c <= 'z' then c as int - 'a' as int + 10
    else if 'A' <= c <= 'Z' then c as int - 'A' as int + 10
    else 36
  }

  predicate IsRadixDigit(c: char, radix: nat) {
    DigitValue(c) < radix
  }

  /** The longest prefix of `s` made of digits of the given radix. */
  function DigitPrefix(s: string, radix: nat): (r: string)
    ensures |r| <= |s| && r == s[..|r|]
    ensures forall i :: 0 <= i < |r| ==> IsRadixDigit(r[i], radix)
    ensures |r| < |s| ==> !IsRadixDigit(s[|r|], radix)
  {
    if s != [] && IsRadixDigit(s[0], radix) then [s[0]] + DigitPrefix(s[1..], radix) else []
  }

  /** The value of a digit string read most-significant digit first. */
  function DigitsValue(ds: string, radix: nat): nat {
    if ds == [] then 0
    else DigitsValue(ds[..|ds| - 1], radix) * radix +
         (if DigitValue(ds[|ds| - 1]) < radix then DigitValue(ds[|ds| - 1]) else 0)
  }

  predicate HasHexPrefix(u: string) {
    |u| >= 2 && u[0] == '0' && (u[1] == 'x' || u[1] == 'X')
  }

  /**
   * `Number.parseInt(s)`: skip leading white space, take an optional sign, read
   * hexadecimal after a `0x`/`0X` prefix and decimal otherwise, stop at the first
   * character that is not a digit, and give NaN (here `None`) when no digit was read.
   */
  function ParseInt(s: string): (r: Option<int>) {
    var t := TrimStart(s);
    var negative := t != [] && t[0] == '-';
    var u := if t != [] && (t[0] == '-' || t[0] == '+') then t[1..] else t;
    var radix := if HasHexPrefix(u) then 16 else 10;
    var digits := DigitPrefix(if HasHexPrefix(u) then u[2..] else u, radix);
    if digits == [] then None
    else
      var magnitude: int := DigitsValue(digits, radix);
      Some(if negative then -magnitude else magnitude)
  }

  // ---------------------------------------------------------------------
  // Decimal rendering of a non-negative integer (`${n}` for `Date.now()`)

  function DecimalDigit(d: nat): (c: char)
    requires d < 10
    ensures '0' <= c <= '9' && DigitValue(c) == d
  {
    ('0' as int + d) as char
  }

  function NumberToString(n: nat): (r: string)
    ensures r != []
    ensures forall i :: 0 <= i < |r| ==> '0' <= r[i] <= '9'
    ensures n >= 10 ==> r[0] != '0'
  {
    if n < 10 then [DecimalDigit(n)] else NumberToString(n / 10) + [DecimalDigit(n % 10)]
  }

  lemma {:induction false} DigitsValueOfNumber(n: nat)
    ensures DigitsValue(NumberToString(n), 10) == n
  {
    var r := NumberToString(n);
    if n >= 10 {
      DigitsValueOfNumber(n / 10);
      assert r[..|r| - 1] == NumberToString(n / 10);
    } else {
      assert r[..|r| - 1] == [];
    }
  }

  lemma {:induction false} DigitPrefixOfDigits(ds: string, rest: string)
    requires forall i :: 0 <= i < |ds| ==> '0' <= ds[i] <= '9'
    requires rest == [] || !IsRadixDigit(rest[0], 10)
    ensures DigitPrefix(ds + rest, 10) == ds
  {
    if ds != [] {
      assert (ds + rest)[1..] == ds[1..] + rest;
      DigitPrefixOfDigits(ds[1..], rest);
    } else {
      assert ds + rest == rest;
    }
  }

  /**
   * `parseInt` reads back the decimal rendering of `n`, and stops at the first
   * character after it that is not a digit (`parseInt("10px") == 10`); only
   * `0` followed by `x` or `X` is read differently, as a hexadecimal prefix.
   */
  lemma {:induction false} ParseIntOfNumber(n: nat, rest: string)
    requires rest == [] || (!IsRadixDigit(rest[0], 10) && (n == 0 ==> rest[0] != 'x' && rest[0] != 'X'))
    ensures ParseInt(NumberToString(n) + rest) == Some(n)
  {
    var d := NumberToString(n);
    var s := d + rest;
    assert s[0] == d[0];
    assert !HasHexPrefix(s) by {
      if |d| >= 2 {
        assert s[1] == d[1];
      } else if |s| >= 2 {
        assert s[1] == rest[0];
      }
    }
    DigitPrefixOfDigits(d, rest);
    DigitsValueOfNumber(n);
    ParseIntUnsigned(s, d);
  }

  /** `parseInt` on text that starts with a digit and carries no hexadecimal prefix. */
  lemma ParseIntUnsigned(s: string, d: string)
    requires s != [] && '0' <= s[0] <= '9' && !HasHexPrefix(s)
    requires d == DigitPrefix(s, 10)
    ensures ParseInt(s) == Some(DigitsValue(d, 10))
  {
    assert !IsJsWhiteSpace(s[0]);
    assert TrimStart(s) == s;
  }

  /** A leading minus sign negates the value read. */
  lemma {:induction false} ParseIntOfNegative(n: nat)
    ensures ParseInt("-" + NumberToString(n)) == Some(0 - n)
  {
    var d := NumberToString(n);
    var s := "-" + d;
    assert s[0] == '-' && !IsJsWhiteSpace(s[0]);
    assert TrimStart(s) == s;
    assert s[1..] == d;
    assert !HasHexPrefix(d) by {
      if |d| >= 2 {
        assert '0' <= d[1] <= '9';
      }
    }
    assert d + [] == d;
    DigitPrefixOfDigits(d, []);
    DigitsValueOfNumber(n);
  }

  // ---------------------------------------------------------------------
  // UTF-8 length (`Buffer.from(s)` defaults to UTF-8)

  function Utf8CharLength(c: char): (k: nat)
    ensures 1 <= k <= 4
    ensures k == 1 <==> c as int < 0x80
  {
    if c as int < 0x80 then 1
    else if c as int < 0x800 then 2
    else if c as int < 0x10000 then 3
    else 4
  }

  function Utf8Length(s: string): nat {
    if s == [] then 0 else Utf8CharLength(s[0]) + Utf8Length(s[1..])
  }

  predicate IsAscii(s: string) {
    forall i :: 0 <= i < |s| ==> s[i] as int < 0x80
  }

  /** Every character takes at least one byte, and exactly one exactly when it is ASCII. */
  lemma {:induction false} Utf8LengthBounds(s: string)
    ensures Utf8Length(s) >= |s|
    ensures Utf8Length(s) == |s| <==> IsAscii(s)
  {
    if s != [] {
      Utf8LengthBounds(s[1..]);
      if IsAscii(s[1..]) && s[0] as int < 0x80 {
        forall i | 0 <= i < |s| ensures s[i] as int < 0x80 {
          if i > 0 { assert s[i] == s[1..][i - 1]; }
        }
      }
      if IsAscii(s) {
        forall i | 0 <= i < |s| - 1 ensures s[1..][i] as int < 0x80 {
          assert s[1..][i] == s[i + 1];
        }
      }
    }
  }
}
