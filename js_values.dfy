/** The slice of JavaScript's value semantics the dashboard and the registration
    form rely on: truthiness (`!x`, `x || y`, `x && y`), strict equality (`===`,
    `!==`), `isNaN` with its string-to-number coercion, and flat records read by
    property access (a missing property reads as `undefined`). */
module JsValues {

  datatype Option<T> = None | Some(value: T)

  /** A primitive JavaScript value. Numbers are finite reals; `NaN` is its own case. */
  datatype Value = Undefined | Null | Bool(b: bool) | Num(x: real) | NaN | Str(s: string)

  /** A plain object such as a user record, a draft or a request body. Object spread
      `{ ...a, ...b }` is the map override `a + b`. */
  type Record = map<string, Value>

  /** Property access `r.key`. */
  function Get(r: Record, key: string): Value
  {
    if key in r then r[key] else Undefined
  }

  /** JavaScript's ToBoolean: the falsy values are undefined, null, false, 0, NaN and "". */
  predicate Truthy(v: Value)
  {
    match v
    case Undefined => false
    case Null => false
    case Bool(b) => b
    case Num(x) => x != 0.0
    case NaN => false
    case Str(s) => s != ""
  }

  /** Strict equality `a === b` on primitives: like values are equal, except that NaN
      equals nothing, itself included. */
  predicate StrictEquals(a: Value, b: Value)
  {
    !a.NaN? && a == b
  }

  // ---------------------------------------------------------------------------
  // isNaN: ToNumber, then a NaN test

  /** The global `isNaN(v)`: true exactly when ToNumber(v) is NaN. Booleans and null
      convert to 0 or 1, undefined to NaN, and a string to NaN unless, once trimmed,
      it is empty or a numeric literal. */
  predicate IsNaN(v: Value)
  {
    match v
    case Undefined => true
    case Null => false
    case Bool(_) => false
    case Num(_) => false
    case NaN => true
    case Str(s) => StringIsNaN(s)
  }

  /** The characters ToNumber trims: white space and line terminators. */
  predicate IsWhiteSpace(c: char)
  {
    var n := c as int;
    (0x09 <= n <= 0x0D) || n == 0x20 || n == 0xA0 || n == 0x1680 ||
    (0x2000 <= n <= 0x200A) || n == 0x2028 || n == 0x2029 || n == 0x202F ||
    n == 0x205F || n == 0x3000 || n == 0xFEFF
  }

  function TrimStart(s: string): (r: string)
    ensures |r| <= |s| && r == s[|s| - |r|..]
    ensures r == [] || !IsWhiteSpace(r[0])
  {
    if s != [] && IsWhiteSpace(s[0]) then TrimStart(s[1..]) else s
  }

  function TrimEnd(s: string): (r: string)
    ensures |r| <= |s| && r == s[..|r|]
    ensures r == [] || !IsWhiteSpace(r[|r| - 1])
  {
    if s != [] && IsWhiteSpace(s[|s| - 1]) then TrimEnd(s[..|s| - 1]) else s
  }

  function Trim(s: string): string
  {
    TrimEnd(TrimStart(s))
  }

  /** ToNumber applied to a string yields NaN. */
  predicate StringIsNaN(s: string)
  {
    var t := Trim(s);
    t != [] && !IsNumericLiteral(t)
  }

  datatype Radix = Binary | Octal | Decimal | Hex

  predicate IsDigitOf(c: char, radix: Radix)
  {
    match radix
    case Binary => c == '0' || c == '1'
    case Octal => '0' <= c <= '7'
    case Decimal => '0' <= c <= '9'
    case Hex => '0' <= c <= '9' || 'a' <= c <= 'f' || 'A' <= c <= 'F'
  }

  /** The index just past the run of `radix` digits that starts at `i`. */
  function DigitsEnd(s: string, i: nat, radix: Radix): (j: nat)
    requires i <= |s|
    ensures i <= j <= |s|
    ensures j == |s| || !IsDigitOf(s[j], radix)
    decreases |s| - i
  {
    if i < |s| && IsDigitOf(s[i], radix) then DigitsEnd(s, i + 1, radix) else i
  }

  /** A trimmed, non-empty string that ToNumber converts to a number (not NaN):
      `0x`/`0o`/`0b` integers, or an optionally signed decimal literal. */
  predicate IsNumericLiteral(t: string)
  {
    IsNonDecimalInteger(t) ||
    if |t| > 0 && (t[0] == '+' || t[0] == '-') then IsUnsignedDecimal(t[1..]) else IsUnsignedDecimal(t)
  }

  predicate IsNonDecimalInteger(t: string)
  {
    |t| >= 3 && t[0] == '0' &&
    var radix :=
      if t[1] == 'x' || t[1] == 'X' then Some(Hex)
      else if t[1] == 'o' || t[1] == 'O' then Some(Octal)
      else if t[1] == 'b' || t[1] == 'B' then Some(Binary)
      else None;
    radix.Some? && DigitsEnd(t, 2, radix.value) == |t|
  }

  /** `Infinity`, or digits with an optional fraction (at least one digit in all)
      followed by an optional exponent. */
  predicate IsUnsignedDecimal(u: string)
  {
    u == "Infinity" ||
    var a := DigitsEnd(u, 0, Decimal);
    var dot := a < |u| && u[a] == '.';
    var b := if dot then DigitsEnd(u, a + 1, Decimal) else a;
    var digits := if dot then b - 1 else b;
    digits > 0 && IsExponentTail(u, b)
  }

  /** What follows the mantissa: nothing, or `e`/`E`, an optional sign and digits. */
  predicate IsExponentTail(u: string, b: nat)
    requires b <= |u|
  {
    b == |u| ||
    ((u[b] == 'e' || u[b] == 'E') &&
     var c := if b + 1 < |u| && (u[b + 1] == '+' || u[b + 1] == '-') then b + 2 else b + 1;
     c < |u| && DigitsEnd(u, c, Decimal) == |u|)
  }

  lemma {:induction false} DigitRunReachesEnd(s: string, i: nat, radix: Radix)
    requires i <= |s|
    requires forall k :: i <= k < |s| ==> IsDigitOf(s[k], radix)
    ensures DigitsEnd(s, i, radix) == |s|
    decreases |s| - i
  {
    if i < |s| {
      DigitRunReachesEnd(s, i + 1, radix);
    }
  }

  lemma {:induction false} TrimStartOfBlank(s: string)
    requires forall k :: 0 <= k < |s| ==> IsWhiteSpace(s[k])
    ensures TrimStart(s) == []
  {
    if s != [] {
      TrimStartOfBlank(s[1..]);
    }
  }

  /** A non-empty run of decimal digits, such as a user id sent as text, is a number. */
  lemma DecimalDigitsAreNumbers(s: string)
    requires s != []
    requires forall k :: 0 <= k < |s| ==> IsDigitOf(s[k], Decimal)
    ensures !IsNaN(Str(s))
  {
    assert TrimStart(s) == s;
    assert TrimEnd(s) == s;
    DigitRunReachesEnd(s, 0, Decimal);
  }

  /** A string of white space alone converts to 0, so `isNaN` reports false for it. */
  lemma BlankStringsAreNumbers(s: string)
    requires forall k :: 0 <= k < |s| ==> IsWhiteSpace(s[k])
    ensures !IsNaN(Str(s))
  {
    TrimStartOfBlank(s);
  }

  predicate IsAsciiLetter(c: char)
  {
    'a' <= c <= 'z' || 'A' <= c <= 'Z'
  }

  /** Digits followed by a letter, such as "12a" or "7e", are not a number. */
  lemma TrailingLetterIsNaN(digits: string, c: char)
    requires forall k :: 0 <= k < |digits| ==> IsDigitOf(digits[k], Decimal)
    requires IsAsciiLetter(c)
    ensures IsNaN(Str(digits + [c]))
  {
    var s := digits + [c];
    EndsOfDigitsThenLetter(digits, c, s);
    TrimOfUnpadded(s);
    DigitsThenLetterIsNotDecimal(digits, c, s);
    NoRadixPrefix(s);
    UnsignedNonLiteralIsNaN(s);
  }

  /** Digits followed by a letter start with neither white space nor a sign, end in no
      white space, and hold a digit in second place when there is a third. */
  lemma EndsOfDigitsThenLetter(digits: string, c: char, s: string)
    requires forall k :: 0 <= k < |digits| ==> IsDigitOf(digits[k], Decimal)
    requires IsAsciiLetter(c) && s == digits + [c]
    ensures s != [] && !IsWhiteSpace(s[0]) && s[0] != '+' && s[0] != '-'
    ensures !IsWhiteSpace(s[|s| - 1])
    ensures |s| >= 3 ==> '0' <= s[1] <= '9'
  {
    assert s[|s| - 1] == c;
    if digits == [] {
      assert s[0] == c;
    } else {
      assert s[0] == digits[0];
    }
    if |s| >= 3 {
      assert s[1] == digits[1];
    }
  }

  /** An unpadded string that starts with no sign and is neither kind of literal is NaN. */
  lemma UnsignedNonLiteralIsNaN(s: string)
    requires s != [] && Trim(s) == s && s[0] != '+' && s[0] != '-'
    requires !IsUnsignedDecimal(s) && !IsNonDecimalInteger(s)
    ensures IsNaN(Str(s))
  {
    assert !IsNumericLiteral(s);
  }

  /** Without `x`, `o` or `b` in second place there is no `0x`/`0o`/`0b` integer. */
  lemma NoRadixPrefix(s: string)
    requires |s| >= 3 ==> '0' <= s[1] <= '9'
    ensures !IsNonDecimalInteger(s)
  {
  }

  /** A string that neither starts nor ends with white space is its own trim. */
  lemma TrimOfUnpadded(s: string)
    requires s != [] && !IsWhiteSpace(s[0]) && !IsWhiteSpace(s[|s| - 1])
    ensures Trim(s) == s
  {
    assert TrimStart(s) == s;
    assert TrimEnd(s) == s;
  }

  lemma DigitsThenLetterIsNotDecimal(digits: string, c: char, s: string)
    requires forall k :: 0 <= k < |digits| ==> IsDigitOf(digits[k], Decimal)
    requires IsAsciiLetter(c) && s == digits + [c]
    ensures !IsUnsignedDecimal(s)
  {
    assert s[..|digits|] == digits;
    DigitsEndOfPrefix(digits, s, 0);
    assert s[|digits|] == c;
    assert s != "Infinity" by {
      if digits != [] { assert s[0] == digits[0]; } else { assert |s| == 1; }
    }
  }

  /** A digit run inside a prefix that is followed by a non-digit ends where it ends
      in the prefix. */
  lemma {:induction false} DigitsEndOfPrefix(p: string, s: string, i: nat)
    requires i <= |p| < |s| && p == s[..|p|]
    requires !IsDigitOf(s[|p|], Decimal)
    requires forall k :: i <= k < |p| ==> IsDigitOf(p[k], Decimal)
    ensures DigitsEnd(s, i, Decimal) == |p|
    decreases |p| - i
  {
    if i < |p| {
      assert s[i] == p[i];
      DigitsEndOfPrefix(p, s, i + 1);
    }
  }
}
