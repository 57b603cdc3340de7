/** Shared vocabulary of the shop's server code: optional values, the JavaScript
    string and number conversions the actions rely on, sums and a descending sort. */
module Common {

  datatype Option<T> = None | Some(value: T)

  // ---------------------------------------------------------------------------
  // Strings as JavaScript sees them
  // ---------------------------------------------------------------------------

  /** The characters `String.prototype.trim` removes and the regex class `\s`
      matches: ECMAScript WhiteSpace and LineTerminator. */
  predicate IsJsSpace(c: char) {
    c == '\t' || c == '\n' || c == '\U{B}' || c == '\U{C}' || c == '\r' || c == ' '
    || c == '\U{A0}' || c == '\U{1680}' || ('\U{2000}' <= c <= '\U{200A}')
    || c == '\U{2028}' || c == '\U{2029}' || c == '\U{202F}' || c == '\U{205F}'
    || c == '\U{3000}' || c == '\U{FEFF}'
  }

  predicate AllSpace(s: string) {
    forall i :: 0 <= i < |s| ==> IsJsSpace(s[i])
  }

  /** `s.trimStart()`: drops the leading white space. */
  function TrimStart(s: string): (r: string)
    ensures |r| <= |s|
  {
    if s != [] && IsJsSpace(s[0]) then TrimStart(s[1..]) else s
  }

  /** What `TrimStart` keeps is a suffix that does not start with white space, and
      what it removes is white space. */
  lemma {:induction false} TrimStartSpaces(s: string)
    ensures var r := TrimStart(s); r == s[|s| - |r|..] && (r == [] || !IsJsSpace(r[0]))
    ensures AllSpace(s[..|s| - |TrimStart(s)|])
  {
    if s != [] && IsJsSpace(s[0]) {
      TrimStartSpaces(s[1..]);
      var n := |s| - |TrimStart(s)|;
      assert s[1..][n - 1..] == s[n..];
      assert forall i :: 1 <= i < n ==> s[..n][i] == s[1..][..n - 1][i - 1];
    }
  }

  /** `s.trim()`: drops the white space at both ends. */
  function Trim(s: string): (r: string)
    ensures |r| <= |s|
    decreases |s|
  {
    if s != [] && IsJsSpace(s[0]) then Trim(s[1..])
    else if s != [] && IsJsSpace(s[|s| - 1]) then Trim(s[..|s| - 1])
    else s
  }

  /** The trimmed string neither starts nor ends with white space. */
  lemma {:induction false} TrimEnds(s: string)
    ensures var r := Trim(s); r == [] || (!IsJsSpace(r[0]) && !IsJsSpace(r[|r| - 1]))
    decreases |s|
  {
    if s != [] && IsJsSpace(s[0]) {
      TrimEnds(s[1..]);
    } else if s != [] && IsJsSpace(s[|s| - 1]) {
      TrimEnds(s[..|s| - 1]);
    }
  }

  /** A string that neither starts nor ends with white space is its own trim. */
  lemma TrimUnpadded(s: string)
    requires s == [] || (!IsJsSpace(s[0]) && !IsJsSpace(s[|s| - 1]))
    ensures Trim(s) == s
  {
  }

  /** A string is blank after trimming exactly when it is all white space. */
  lemma {:induction false} TrimEmptyIffAllSpace(s: string)
    ensures Trim(s) == [] <==> AllSpace(s)
    decreases |s|
  {
    if s != [] && IsJsSpace(s[0]) {
      TrimEmptyIffAllSpace(s[1..]);
      assert AllSpace(s) <==> AllSpace(s[1..]) by {
        if AllSpace(s[1..]) {
          assert forall i :: 1 <= i < |s| ==> s[i] == s[1..][i - 1];
        }
      }
    } else if s != [] && IsJsSpace(s[|s| - 1]) {
      TrimEmptyIffAllSpace(s[..|s| - 1]);
      assert s[..|s| - 1][0] == s[0];
    }
  }

  /** Trimming twice is trimming once. */
  lemma TrimIdempotent(s: string)
    ensures Trim(Trim(s)) == Trim(s)
  {
    TrimEnds(s);
    TrimUnpadded(Trim(s));
  }

  /** The middle part of a concatenation is found at its offset. */
  lemma MiddleSlice<T>(a: seq<T>, b: seq<T>, c: seq<T>)
    ensures (a + b + c)[|a|..|a| + |b|] == b
  {
  }

  /** Lower-casing of one character, exact for every character whose JavaScript
      lower case is an ASCII character: `A`-`Z` and the KELVIN SIGN (U+212A), whose
      lower case is `k`. Every other character is left as it is. */
  function LowerChar(c: char): (r: char)
    ensures 'A' <= c <= 'Z' ==> r as int == c as int + 32
    ensures r != c ==> ('A' <= c <= 'Z' || c == '\U{212A}')
  {
    if 'A' <= c <= 'Z' then (c as int + 32) as char
    else if c == '\U{212A}' then 'k'
    else c
  }

  function ToLower(s: string): (r: string)
    ensures |r| == |s|
  {
    if s == [] then [] else [LowerChar(s[0])] + ToLower(s[1..])
  }

  /** Lower-casing maps each character on its own. */
  lemma {:induction false} ToLowerAt(s: string, i: nat)
    requires i < |s|
    ensures ToLower(s)[i] == LowerChar(s[i])
    decreases i
  {
    if i > 0 {
      ToLowerAt(s[1..], i - 1);
    }
  }

  /** A string without upper-case letters is its own lower case. */
  lemma {:induction false} ToLowerOfLower(s: string)
    requires forall i :: 0 <= i < |s| ==> LowerChar(s[i]) == s[i]
    ensures ToLower(s) == s
  {
    if s != [] {
      ToLowerOfLower(s[1..]);
    }
  }

  /** `s.toLowerCase() === lit` for an all-lower-case ASCII literal `lit`. A character
      whose lower case is not ASCII makes the comparison false in both JavaScript and
      here, because LowerChar leaves it non-ASCII. */
  predicate LowerEquals(s: string, lit: string) {
    ToLower(s) == lit
  }

  predicate StartsWith(s: string, prefix: string) {
    |prefix| <= |s| && s[..|prefix|] == prefix
  }

  /** `s[k..k + |r|] == r`: r occurs in s at position k. */
  predicate InfixAt(s: string, k: int, r: string) {
    0 <= k <= |s| - |r| && s[k..k + |r|] == r
  }

  /** `s.includes(t)`. */
  predicate Contains(s: string, t: string)
    decreases |s|
  {
    StartsWith(s, t) || (s != [] && Contains(s[1..], t))
  }

  /** An occurrence at any position is found. */
  lemma {:induction false} ContainsInfix(s: string, k: nat, t: string)
    requires InfixAt(s, k, t)
    ensures Contains(s, t)
    decreases k
  {
    if k > 0 {
      assert s[1..][k - 1..k - 1 + |t|] == s[k..k + |t|];
      ContainsInfix(s[1..], k - 1, t);
    } else {
      assert s[..|t|] == t;
    }
  }

  /** Joins with a separator, as `Array.prototype.join`. */
  function Join(parts: seq<string>, sep: string): (r: string)
    ensures parts == [] ==> r == ""
    ensures |parts| == 1 ==> r == parts[0]
  {
    if parts == [] then "" else if |parts| == 1 then parts[0] else parts[0] + sep + Join(parts[1..], sep)
  }

  /** `parts.join("")`. */
  function Concat(parts: seq<string>): (r: string)
    ensures |r| == LengthSum(parts)
  {
    if parts == [] then "" else parts[0] + Concat(parts[1..])
  }

  function LengthSum(parts: seq<string>): nat {
    if parts == [] then 0 else |parts[0]| + LengthSum(parts[1..])
  }

  lemma {:induction false} ConcatAppend(a: seq<string>, b: seq<string>)
    ensures Concat(a + b) == Concat(a) + Concat(b)
  {
    if a == [] {
      assert a + b == b;
    } else {
      assert (a + b)[1..] == a[1..] + b;
      ConcatAppend(a[1..], b);
    }
  }

  lemma ConcatPair(x: string, y: string)
    ensures Concat([x]) == x
    ensures Concat([x, y]) == x + y
  {
    assert [x, y][1..] == [y];
    assert [x][1..] == [];
  }

  /** `split(d)`: the pieces of a string between occurrences of a delimiter. */
  function Split(t: string, d: char): (parts: seq<string>)
    ensures |parts| >= 1
  {
    if t == [] then [[]]
    else
      var rest := Split(t[1..], d);
      if t[0] == d then [[]] + rest else [[t[0]] + rest[0]] + rest[1..]
  }

  /** Splitting at a delimiter that the first piece does not contain. */
  lemma {:induction false} SplitAt(a: string, d: char, b: string)
    requires forall i :: 0 <= i < |a| ==> a[i] != d
    ensures Split(a + [d] + b, d) == [a] + Split(b, d)
  {
    var t := a + [d] + b;
    if a == [] {
      assert t[0] == d && t[1..] == b;
    } else {
      assert t[0] == a[0] && t[1..] == a[1..] + [d] + b;
      SplitAt(a[1..], d, b);
      var rest := Split(t[1..], d);
      assert rest[0] == a[1..] && rest[1..] == Split(b, d);
      assert [t[0]] + rest[0] == a;
    }
  }

  lemma {:induction false} SplitNone(a: string, d: char)
    requires forall i :: 0 <= i < |a| ==> a[i] != d
    ensures Split(a, d) == [a]
  {
    if a != [] {
      SplitNone(a[1..], d);
      assert a[0] != d;
      assert [a[0]] + a[1..] == a;
    }
  }

  /** Decimal rendering of a natural number, as template interpolation prints it. */
  function NatToString(n: nat): (r: string)
    ensures r != []
    ensures forall i :: 0 <= i < |r| ==> '0' <= r[i] <= '9'
    ensures n > 0 ==> r[0] != '0'
  {
    if n < 10 then [DigitChar(n)] else NatToString(n / 10) + [DigitChar(n % 10)]
  }

  /** Reading back the decimal rendering gives the number. */
  lemma {:induction false} NatToStringValue(n: nat)
    ensures DigitRun(NatToString(n), 10) == |NatToString(n)|
    ensures DigitsValue(NatToString(n), 10) == n
  {
    var r := NatToString(n);
    assert forall i :: 0 <= i < |r| ==> IsDigitIn(r[i], 10);
    DigitRunAll(r, 10);
    if n >= 10 {
      NatToStringValue(n / 10);
      assert r[..|r| - 1] == NatToString(n / 10);
    }
  }

  function DigitChar(d: nat): (c: char)
    requires d < 10
    ensures '0' <= c <= '9' && c as int - '0' as int == d
  {
    ('0' as int + d) as char
  }

  // ---------------------------------------------------------------------------
  // UTF-8, the encoding Go strings and URL percent-encoding count in
  // ---------------------------------------------------------------------------

  /** Number of UTF-8 bytes of one Unicode scalar value. */
  function Utf8Width(c: char): (w: nat)
    ensures 1 <= w <= 4
    ensures w == 1 <==> c as int < 0x80
  {
    if c as int < 0x80 then 1 else if c as int < 0x800 then 2 else if c as int < 0x10000 then 3 else 4
  }

  /** Go's `len` of a string: its length in UTF-8 bytes. */
  function Utf8Length(s: string): (n: nat)
    ensures n >= |s|
  {
    if s == [] then 0 else Utf8Width(s[0]) + Utf8Length(s[1..])
  }

  /** The UTF-8 encoding of one scalar value. */
  function Utf8Bytes(c: char): (bs: seq<nat>)
    ensures |bs| == Utf8Width(c)
    ensures forall i :: 0 <= i < |bs| ==> bs[i] < 256
    ensures Utf8Width(c) == 1 ==> bs == [c as int]
  {
    var v := c as int;
    if v < 0x80 then [v]
    else if v < 0x800 then [0xC0 + v / 0x40, 0x80 + v % 0x40]
    else if v < 0x10000 then [0xE0 + v / 0x1000, 0x80 + (v / 0x40) % 0x40, 0x80 + v % 0x40]
    else [0xF0 + v / 0x40000, 0x80 + (v / 0x1000) % 0x40, 0x80 + (v / 0x40) % 0x40, 0x80 + v % 0x40]
  }

  // ---------------------------------------------------------------------------
  // JavaScript numbers
  // ---------------------------------------------------------------------------

  /** A JavaScript number: NaN, a finite value (held exactly) or an infinity. */
  datatype JsNumber = NaN | Finite(v: real) | Infinite(negative: bool)

  /** Truthiness of a number: everything except 0, -0 and NaN. */
  predicate Truthy(n: JsNumber) {
    match n
    case NaN => false
    case Finite(v) => v != 0.0
    case Infinite(_) => true
  }

  /** `Math.max(lo, n)` for a finite lower bound. */
  function MaxWith(lo: real, n: JsNumber): JsNumber {
    match n
    case NaN => NaN
    case Finite(v) => if v < lo then Finite(lo) else n
    case Infinite(neg) => if neg then Finite(lo) else n
  }

  /** `Math.min(n, hi)` for a finite upper bound. */
  function MinWith(n: JsNumber, hi: real): JsNumber {
    match n
    case NaN => NaN
    case Finite(v) => if v > hi then Finite(hi) else n
    case Infinite(neg) => if neg then n else Finite(hi)
  }

  predicate IsDigitIn(c: char, base: nat) {
    DigitValue(c) < base
  }

  /** Value of an ASCII digit or letter as a digit (36 for anything else). */
  function DigitValue(c: char): (d: nat)
    ensures d <= 36
  {
    if '0' <= c <= '9' then c as int - '0' as int
    else if 'a' <= c <= 'z' then c as int - 'a' as int + 10
    else if 'A' <= c <= 'Z' then c as int - 'A' as int + 10
    else 36
  }

  /** Length of the longest prefix of digits in the given base. */
  function DigitRun(s: string, base: nat): (n: nat)
    ensures n <= |s|
    ensures n < |s| ==> !IsDigitIn(s[n], base)
  {
    if s != [] && IsDigitIn(s[0], base) then 1 + DigitRun(s[1..], base) else 0
  }

  /** A string of digits is one run. */
  lemma {:induction false} DigitRunAll(s: string, base: nat)
    requires forall i :: 0 <= i < |s| ==> IsDigitIn(s[i], base)
    ensures DigitRun(s, base) == |s|
  {
    if s != [] {
      DigitRunAll(s[1..], base);
    }
  }

  /** Value of a string of digits, most significant first (meaningful when every
      character is a digit in the base). */
  function DigitsValue(s: string, base: nat): nat
  {
    if s == [] then 0 else DigitsValue(s[..|s| - 1], base) * base + DigitValue(s[|s| - 1])
  }

  function Pow10(e: nat): (r: real)
    ensures r >= 1.0
  {
    if e == 0 then 1.0 else 10.0 * Pow10(e - 1)
  }

  /** Scaling by a power of ten with an integer exponent. */
  function Scale10(x: real, e: int): real {
    if e >= 0 then x * Pow10(e) else x / Pow10(-e)
  }

  /** StrUnsignedDecimalLiteral without "Infinity": digits, an optional fraction and
      an optional exponent, with at least one digit before the exponent. */
  function UnsignedDecimal(s: string): Option<real> {
    var i := DigitRun(s, 10);
    var rest := s[i..];
    var hasDot := rest != [] && rest[0] == '.';
    var frac := if hasDot then rest[1..] else [];
    var f := DigitRun(frac, 10);
    var afterFrac := if hasDot then frac[f..] else rest;
    var mantissa := DigitsValue(s[..i], 10) as real + DigitsValue(frac[..f], 10) as real / Pow10(f);
    if i + f == 0 then None
    else if afterFrac == [] then Some(mantissa)
    else if afterFrac[0] == 'e' || afterFrac[0] == 'E' then
      var e := afterFrac[1..];
      var neg := e != [] && e[0] == '-';
      var digits := if e != [] && (e[0] == '-' || e[0] == '+') then e[1..] else e;
      var d := DigitRun(digits, 10);
      if d == 0 || d != |digits| then None
      else
        var exp: int := DigitsValue(digits, 10);
        Some(Scale10(mantissa, if neg then -exp else exp))
    else None
  }

  /** `Number(s)` for a string: surrounding white space is ignored, a blank string is
      0, then a signed decimal literal, a signed "Infinity", or an unsigned 0x / 0o /
      0b literal; anything else is NaN. Values are exact reals here. */
  function StringToNumber(s: string): (n: JsNumber)
    ensures Trim(s) == [] ==> n == Finite(0.0)
  {
    var t := Trim(s);
    if t == [] then Finite(0.0)
    else if RadixPrefixed(t) then RadixNumber(t)
    else SignedDecimal(t)
  }

  /** "0x", "0o" or "0b" in either case, followed by something. */
  predicate RadixPrefixed(t: string) {
    |t| > 2 && t[0] == '0' && (t[1] in "xXoObB")
  }

  /** An unsigned hexadecimal, octal or binary literal, NaN when a character after
      the prefix is not a digit of the base. */
  function RadixNumber(t: string): JsNumber
    requires RadixPrefixed(t)
  {
    var base := if t[1] in "xX" then 16 else if t[1] in "oO" then 8 else 2;
    var body := t[2..];
    if DigitRun(body, base) == |body| then Finite(DigitsValue(body, base) as real) else NaN
  }

  /** An optionally signed decimal literal or "Infinity". */
  function SignedDecimal(t: string): JsNumber
    requires t != []
  {
    var neg := t[0] == '-';
    var body := if t[0] == '-' || t[0] == '+' then t[1..] else t;
    if body == "Infinity" then Infinite(neg)
    else match UnsignedDecimal(body)
      case None => NaN
      case Some(v) => Finite(if neg then -v else v)
  }

  /** `parseInt(s)` with no radix, None standing for NaN: leading white space and a
      sign are skipped, a "0x"/"0X" prefix selects base 16, and the longest run of
      digits is read; no digit at all gives NaN. */
  function ParseInt(s: string): (r: Option<int>)
    ensures r.Some? ==> exists i :: 0 <= i < |s| && '0' <= s[i] <= '9'
  {
    var t := TrimStart(s);
    var neg := t != [] && t[0] == '-';
    var signed := t != [] && (t[0] == '-' || t[0] == '+');
    var u := if signed then t[1..] else t;
    var hex := |u| >= 2 && u[0] == '0' && (u[1] == 'x' || u[1] == 'X');
    var base := if hex then 16 else 10;
    var body := if hex then u[2..] else u;
    var n := DigitRun(body, base);
    if n == 0 then None
    else
      TrimStartSpaces(s);
      var at := |s| - |t| + (if signed then 1 else 0);
      assert s[at] == u[0] && '0' <= u[0] <= '9';
      var v: int := DigitsValue(body[..n], base);
      Some(if neg then -v else v)
  }

  /** `Number` reads a decimal numeral back as its value. */
  lemma NumeralNumber(n: nat)
    ensures StringToNumber(NatToString(n)) == Finite(n as real)
  {
    NatToStringValue(n);
    DigitsNumber(NatToString(n));
  }

  /** `Number` of a non-empty run of decimal digits is the value of the digits. */
  lemma DigitsNumber(d: string)
    requires d != [] && DigitRun(d, 10) == |d|
    requires forall i :: 0 <= i < |d| ==> '0' <= d[i] <= '9'
    ensures StringToNumber(d) == Finite(DigitsValue(d, 10) as real)
  {
    DigitsUnpadded(d);
    assert !RadixPrefixed(d) by {
      assert |d| > 2 ==> d[1] !in "xXoObB";
    }
    SignedDigits(d);
  }

  lemma DigitsUnpadded(d: string)
    requires d != [] && '0' <= d[0] <= '9' && '0' <= d[|d| - 1] <= '9'
    ensures Trim(d) == d
  {
    TrimUnpadded(d);
  }

  lemma SignedDigits(d: string)
    requires d != [] && DigitRun(d, 10) == |d| && '0' <= d[0] <= '9'
    ensures SignedDecimal(d) == Finite(DigitsValue(d, 10) as real)
  {
    assert d != "Infinity" by { assert d[0] != 'I'; }
    DigitsAreDecimal(d);
  }

  /** A non-empty run of digits is an unsigned decimal literal with its value. */
  lemma DigitsAreDecimal(d: string)
    requires d != [] && DigitRun(d, 10) == |d|
    ensures UnsignedDecimal(d) == Some(DigitsValue(d, 10) as real)
  {
    var empty: string := [];
    assert d[|d|..] == empty && d[..|d|] == d;
    assert DigitRun(empty, 10) == 0;
    assert empty[..0] == empty && DigitsValue(empty, 10) == 0;
    assert DigitsValue(empty[..0], 10) as real / Pow10(0) == 0.0;
  }

  /** `parseInt` reads a decimal numeral back as its value. */
  lemma ParseIntNumeral(n: nat)
    ensures ParseInt(NatToString(n)) == Some(n)
  {
    NatToStringValue(n);
    DigitsParseInt(NatToString(n));
  }

  /** `parseInt` of a non-empty run of decimal digits is the value of the digits. */
  lemma DigitsParseInt(d: string)
    requires d != [] && DigitRun(d, 10) == |d|
    requires forall i :: 0 <= i < |d| ==> '0' <= d[i] <= '9'
    ensures ParseInt(d) == Some(DigitsValue(d, 10))
  {
    assert !IsJsSpace(d[0]);
    assert TrimStart(d) == d;
    assert d[0] != '-' && d[0] != '+';
    assert !(|d| >= 2 && d[0] == '0' && (d[1] == 'x' || d[1] == 'X'));
    assert d[..|d|] == d;
  }

  // ---------------------------------------------------------------------------
  // Looking records up by key
  // ---------------------------------------------------------------------------

  predicate HasKey<T, K(==)>(s: seq<T>, key: T -> K, k: K) {
    exists i :: 0 <= i < |s| && key(s[i]) == k
  }

  /** `findIndex(x => key(x) === k)`: the first position holding the key, or -1. */
  function FindKey<T, K(==)>(s: seq<T>, key: T -> K, k: K): (i: int)
    ensures -1 <= i < |s|
    ensures i == -1 <==> !HasKey(s, key, k)
    ensures i >= 0 ==> key(s[i]) == k && forall j :: 0 <= j < i ==> key(s[j]) != k
  {
    if s == [] then -1
    else if key(s[0]) == k then 0
    else
      var i := FindKey(s[1..], key, k);
      assert HasKey(s[1..], key, k) ==> HasKey(s, key, k) by {
        if HasKey(s[1..], key, k) {
          var j :| 0 <= j < |s[1..]| && key(s[1..][j]) == k;
          assert key(s[j + 1]) == k;
        }
      }
      assert HasKey(s, key, k) ==> HasKey(s[1..], key, k) by {
        if HasKey(s, key, k) {
          var j :| 0 <= j < |s| && key(s[j]) == k;
          assert key(s[1..][j - 1]) == k;
        }
      }
      if i == -1 then -1 else i + 1
  }

  /** After appending a record, a lookup finds the earlier record with the key if
      there is one, and otherwise the appended record when it has the key. */
  lemma FindKeyAppend<T, K>(s: seq<T>, x: T, key: T -> K, k: K)
    ensures FindKey(s + [x], key, k)
            == if HasKey(s, key, k) then FindKey(s, key, k) else if key(x) == k then |s| else -1
  {
    var t := s + [x];
    var i := FindKey(t, key, k);
    assert forall j :: 0 <= j < |s| ==> t[j] == s[j];
    if HasKey(s, key, k) {
      var j := FindKey(s, key, k);
      assert key(t[j]) == k;
      assert HasKey(t, key, k);
    } else if key(x) == k {
      assert key(t[|s|]) == k;
    } else {
      assert forall j :: 0 <= j < |t| ==> key(t[j]) != k;
    }
  }

  /** `s.filter(x => key(x) !== k)`. */
  function FilterOut<T, K(==)>(s: seq<T>, key: T -> K, k: K): (r: seq<T>)
    ensures |r| <= |s|
  {
    if s == [] then []
    else
      var rest := FilterOut(s[1..], key, k);
      if key(s[0]) == k then rest else [s[0]] + rest
  }

  /** The filter keeps exactly the elements without the key. */
  lemma {:induction false} FilterOutMembers<T(!new), K>(s: seq<T>, key: T -> K, k: K)
    ensures forall x :: x in FilterOut(s, key, k) <==> x in s && key(x) != k
  {
    if s != [] {
      FilterOutMembers(s[1..], key, k);
      var rest := FilterOut(s[1..], key, k);
      assert FilterOut(s, key, k) == if key(s[0]) == k then rest else [s[0]] + rest;
      forall x ensures x in FilterOut(s, key, k) <==> x in s && key(x) != k {
        assert x in s <==> x == s[0] || x in s[1..];
      }
    }
  }

  /** With no element holding the key, the filter changes nothing. */
  lemma {:induction false} FilterOutNoKey<T, K>(s: seq<T>, key: T -> K, k: K)
    requires !HasKey(s, key, k)
    ensures FilterOut(s, key, k) == s
  {
    if s != [] {
      assert key(s[0]) != k;
      assert forall j :: 0 <= j < |s[1..]| ==> s[1..][j] == s[j + 1];
      FilterOutNoKey(s[1..], key, k);
      assert [s[0]] + s[1..] == s;
    }
  }

  /** Filtering out the key of an appended element drops that element. */
  lemma {:induction false} FilterOutAppend<T, K>(s: seq<T>, x: T, key: T -> K, k: K)
    ensures FilterOut(s + [x], key, k) == FilterOut(s, key, k) + (if key(x) == k then [] else [x])
  {
    if s == [] {
      assert [x][1..] == [];
      assert s + [x] == [x];
    } else {
      var t := s + [x];
      assert t[0] == s[0] && t[1..] == s[1..] + [x];
      FilterOutAppend(s[1..], x, key, k);
    }
  }

  /** `s.filter(x => key(x) === k)`. */
  function KeepKey<T, K(==)>(s: seq<T>, key: T -> K, k: K): (r: seq<T>)
    ensures |r| <= |s|
  {
    if s == [] then []
    else
      var rest := KeepKey(s[1..], key, k);
      if key(s[0]) == k then [s[0]] + rest else rest
  }

  /** The filter keeps every element with the key as often as it occurs, and no
      other element. */
  lemma {:induction false} KeepKeyCount<T(!new), K>(s: seq<T>, key: T -> K, k: K)
    ensures forall x :: multiset(KeepKey(s, key, k))[x] == if key(x) == k then multiset(s)[x] else 0
  {
    if s != [] {
      KeepKeyCount(s[1..], key, k);
      var rest := KeepKey(s[1..], key, k);
      assert s == [s[0]] + s[1..];
      assert multiset(s) == multiset{s[0]} + multiset(s[1..]);
      if key(s[0]) == k {
        assert multiset(KeepKey(s, key, k)) == multiset{s[0]} + multiset(rest);
      } else {
        assert KeepKey(s, key, k) == rest;
      }
    }
  }

  // ---------------------------------------------------------------------------
  // Sorting newest first
  // ---------------------------------------------------------------------------

  predicate SortedDesc<T>(s: seq<T>, key: T -> int) {
    forall i, j :: 0 <= i < j < |s| ==> key(s[i]) >= key(s[j])
  }

  /** Inserts x before the first element whose key is not above its own. */
  function InsertDesc<T>(x: T, s: seq<T>, key: T -> int): (r: seq<T>)
    ensures |r| == |s| + 1
  {
    if s == [] || key(x) >= key(s[0]) then [x] + s
    else [s[0]] + InsertDesc(x, s[1..], key)
  }

  lemma {:induction false} InsertDescSorted<T>(x: T, s: seq<T>, key: T -> int)
    requires SortedDesc(s, key)
    ensures SortedDesc(InsertDesc(x, s, key), key)
    ensures s != [] ==> forall j :: 0 <= j < |s| + 1 ==>
              key(InsertDesc(x, s, key)[j]) <= key(x) || key(InsertDesc(x, s, key)[j]) <= key(s[0])
  {
    if s != [] && key(x) < key(s[0]) {
      var t := InsertDesc(x, s[1..], key);
      InsertDescSorted(x, s[1..], key);
      var r := [s[0]] + t;
      assert r == InsertDesc(x, s, key);
      forall i, j | 0 <= i < j < |r| ensures key(r[i]) >= key(r[j]) {
        if i > 0 {
          assert r[i] == t[i - 1] && r[j] == t[j - 1];
        } else {
          assert r[j] == t[j - 1];
        }
      }
    }
  }

  lemma {:induction false} InsertDescPermutes<T>(x: T, s: seq<T>, key: T -> int)
    ensures multiset(InsertDesc(x, s, key)) == multiset(s) + multiset{x}
  {
    if s != [] && key(x) < key(s[0]) {
      InsertDescPermutes(x, s[1..], key);
      assert s == [s[0]] + s[1..];
    }
  }

  /** What `arr.sort((a, b) => key(b) - key(a))` produces: a stable insertion sort,
      an element going before every later element with an equal key. */
  function SortDesc<T>(s: seq<T>, key: T -> int): (r: seq<T>)
    ensures SortedDesc(r, key)
    ensures multiset(r) == multiset(s)
    ensures |r| == |s|
  {
    if s == [] then []
    else
      var sorted := SortDesc(s[1..], key);
      InsertDescSorted(s[0], sorted, key);
      InsertDescPermutes(s[0], sorted, key);
      assert s == [s[0]] + s[1..];
      InsertDesc(s[0], sorted, key)
  }
}
