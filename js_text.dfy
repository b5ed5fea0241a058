/**
 * The JavaScript string primitives the services rely on: the white-space class used by
 * `trim()` and by the regular-expression class `\s`, `toLowerCase()` / `toUpperCase()`
 * restricted to the Latin-1 block (plus the few characters outside it that map into it),
 * `String(n)` for integers, and `length`, which counts UTF-16 code units.
 */
module JsText {

  /** ECMAScript WhiteSpace and LineTerminator code points: what `trim()` removes and `\s` matches. */
  predicate IsWhitespace(c: char) {
    var n := c as int;
    (9 <= n <= 13) || n == 0x20 || n == 0xA0 || n == 0x1680 || (0x2000 <= n <= 0x200A)
    || n == 0x2028 || n == 0x2029 || n == 0x202F || n == 0x205F || n == 0x3000 || n == 0xFEFF
  }

  function TrimStart(s: string): (r: string)
    ensures |r| <= |s| && r == s[|s| - |r|..]
    ensures r == [] || !IsWhitespace(r[0])
    ensures forall i :: 0 <= i < |s| - |r| ==> IsWhitespace(s[i])
  {
    if s != [] && IsWhitespace(s[0]) then TrimStart(s[1..]) else s
  }

  function TrimEnd(s: string): (r: string)
    ensures |r| <= |s| && r == s[..|r|]
    ensures r == [] || !IsWhitespace(r[|r| - 1])
    ensures forall i :: |r| <= i < |s| ==> IsWhitespace(s[i])
  {
    if s != [] && IsWhitespace(s[|s| - 1]) then TrimEnd(s[..|s| - 1]) else s
  }

  /** `String.prototype.trim`. */
  function Trim(s: string): string {
    TrimEnd(TrimStart(s))
  }

  predicate IsTrimmed(s: string) {
    s == [] || (!IsWhitespace(s[0]) && !IsWhitespace(s[|s| - 1]))
  }

  lemma TrimStartOfTrimmed(s: string)
    requires IsTrimmed(s)
    ensures TrimStart(s) == s
  {
  }

  /** Leading white space stops at the first other character, whatever follows it. */
  lemma {:induction false} TrimStartAppend(s: string, t: string)
    requires t != [] && !IsWhitespace(t[0])
    ensures TrimStart(s + t) == TrimStart(s) + t
  {
    if s == [] {
      assert s + t == t;
    } else {
      assert (s + t)[0] == s[0];
      assert (s + t)[1..] == s[1..] + t;
      if IsWhitespace(s[0]) {
        TrimStartAppend(s[1..], t);
      }
    }
  }

  lemma TrimEndOfTrimmed(s: string)
    requires IsTrimmed(s)
    ensures TrimEnd(s) == s
  {
  }

  /** `trim()` yields a string with no white space at either end, and is therefore idempotent. */
  lemma TrimIsTrimmed(s: string)
    ensures IsTrimmed(Trim(s))
    ensures Trim(Trim(s)) == Trim(s)
  {
    var t := TrimStart(s);
    var r := TrimEnd(t);
    if r != [] {
      assert r[0] == t[0];
    }
    TrimStartOfTrimmed(r);
    TrimEndOfTrimmed(r);
  }

  /** `toLowerCase()` of one code point (the Unicode default mapping on the modelled range). */
  function LowerChar(c: char): string {
    var n := c as int;
    if 'A' <= c <= 'Z' || (0xC0 <= n <= 0xDE && n != 0xD7) then [(n + 32) as char]
    else if n == 0x130 then ['i', '\U{307}']
    else if n == 0x212A then ['k']
    else if n == 0x212B then ['\U{E5}']
    else [c]
  }

  function ToLower(s: string): string {
    if s == [] then [] else LowerChar(s[0]) + ToLower(s[1..])
  }

  /** `toUpperCase()` of one code point (the Unicode default mapping on the modelled range). */
  function UpperChar(c: char): (r: string)
    ensures |r| == if c as int == 0xDF then 2 else 1
  {
    var n := c as int;
    if 'a' <= c <= 'z' || (0xE0 <= n <= 0xFE && n != 0xF7) then [(n - 32) as char]
    else if n == 0xFF then ['\U{178}']
    else if n == 0xB5 then ['\U{39C}']
    else if n == 0xDF then ['S', 'S']
    else [c]
  }

  function ToUpper(s: string): (r: string)
    ensures s == [] ==> r == []
  {
    if s == [] then [] else UpperChar(s[0]) + ToUpper(s[1..])
  }

  lemma {:induction false} ToLowerAppend(s: string, t: string)
    ensures ToLower(s + t) == ToLower(s) + ToLower(t)
  {
    if s == [] {
      assert s + t == t;
    } else {
      assert (s + t)[0] == s[0];
      assert (s + t)[1..] == s[1..] + t;
      ToLowerAppend(s[1..], t);
    }
  }

  /** Lower-casing a lower-cased code point changes nothing. */
  lemma LowerCharIdempotent(c: char)
    ensures ToLower(LowerChar(c)) == LowerChar(c)
  {
    var l := LowerChar(c);
    if |l| == 2 {
      assert l == ['i'] + ['\U{307}'];
      ToLowerAppend(['i'], ['\U{307}']);
    }
  }

  /** Lower-casing twice is lower-casing once. */
  lemma {:induction false} ToLowerIdempotent(s: string)
    ensures ToLower(ToLower(s)) == ToLower(s)
  {
    if s != [] {
      ToLowerAppend(LowerChar(s[0]), ToLower(s[1..]));
      LowerCharIdempotent(s[0]);
      ToLowerIdempotent(s[1..]);
    }
  }

  /** A text whose every code point lower-cases to the matching one of `l` lower-cases to `l`. */
  lemma {:induction false} ToLowerByChars(s: string, l: string)
    requires |l| == |s| && forall i :: 0 <= i < |s| ==> LowerChar(s[i]) == [l[i]]
    ensures ToLower(s) == l
  {
    if s != [] {
      assert forall i :: 0 <= i < |s[1..]| ==> s[1..][i] == s[i + 1] && l[1..][i] == l[i + 1];
      ToLowerByChars(s[1..], l[1..]);
      assert l == [l[0]] + l[1..];
    }
  }

  lemma ToUpperAppend(s: string, t: string)
    ensures ToUpper(s + t) == ToUpper(s) + ToUpper(t)
  {
    if s == [] {
      assert s + t == t;
    } else {
      assert (s + t)[0] == s[0];
      assert (s + t)[1..] == s[1..] + t;
      ToUpperAppend(s[1..], t);
    }
  }

  lemma UpperCharIdempotent(c: char)
    ensures ToUpper(UpperChar(c)) == UpperChar(c)
  {
    var u := UpperChar(c);
    if |u| == 1 {
      assert ToUpper(u) == UpperChar(u[0]) + ToUpper([]);
    } else {
      assert u == ['S', 'S'];
      assert ToUpper(u) == UpperChar('S') + ToUpper(['S']);
    }
  }

  /** Upper-casing an upper-cased string changes nothing. */
  lemma {:induction false} ToUpperIdempotent(s: string)
    ensures ToUpper(ToUpper(s)) == ToUpper(s)
  {
    if s != [] {
      ToUpperAppend(UpperChar(s[0]), ToUpper(s[1..]));
      UpperCharIdempotent(s[0]);
      ToUpperIdempotent(s[1..]);
    }
  }

  /** An upper-cased character is white space exactly when the character was. */
  lemma UpperCharWhitespace(c: char)
    ensures |UpperChar(c)| >= 1
    ensures IsWhitespace(UpperChar(c)[0]) <==> IsWhitespace(c)
    ensures IsWhitespace(UpperChar(c)[|UpperChar(c)| - 1]) <==> IsWhitespace(c)
  {
  }

  lemma {:induction false} ToUpperHead(s: string)
    requires s != []
    ensures ToUpper(s) != [] && ToUpper(s)[0] == UpperChar(s[0])[0]
  {
    UpperCharWhitespace(s[0]);
  }

  lemma {:induction false} ToUpperLast(s: string)
    requires s != []
    ensures var u := ToUpper(s); var l := UpperChar(s[|s| - 1]);
      u != [] && u[|u| - 1] == l[|l| - 1]
  {
    var k := |s| - 1;
    assert s == s[..k] + [s[k]];
    ToUpperAppend(s[..k], [s[k]]);
    assert ToUpper([s[k]]) == UpperChar(s[k]) + ToUpper([]);
    UpperCharWhitespace(s[k]);
  }

  /** Upper-casing never creates or removes white space at the ends of a string. */
  lemma {:induction false} ToUpperKeepsTrimmed(s: string)
    requires IsTrimmed(s)
    ensures IsTrimmed(ToUpper(s))
    ensures s != [] ==> ToUpper(s) != []
  {
    if s != [] {
      ToUpperHead(s);
      ToUpperLast(s);
      UpperCharWhitespace(s[0]);
      UpperCharWhitespace(s[|s| - 1]);
    }
  }

  /** Under the modelled case mapping, only U+00DF (sharp s), which becomes "SS", changes the length of a string. */
  predicate HasSharpS(s: string) {
    exists i :: 0 <= i < |s| && s[i] as int == 0xDF
  }

  lemma NoSharpSInTail(s: string)
    requires s != [] && !HasSharpS(s)
    ensures !HasSharpS(s[1..])
  {
    forall i | 0 <= i < |s[1..]| ensures s[1..][i] as int != 0xDF {
      assert s[1..][i] == s[i + 1];
    }
  }

  lemma {:induction false} ToUpperLength(s: string)
    ensures |ToUpper(s)| >= |s|
    ensures !HasSharpS(s) ==> |ToUpper(s)| == |s|
  {
    if s != [] {
      ToUpperLength(s[1..]);
      assert ToUpper(s) == UpperChar(s[0]) + ToUpper(s[1..]);
      if !HasSharpS(s) {
        assert s[0] as int != 0xDF;
        NoSharpSInTail(s);
      }
    }
  }

  /** `String.prototype.length`: code points above U+FFFF take two UTF-16 code units. */
  function Utf16Length(s: string): (n: nat)
    ensures n >= |s|
  {
    if s == [] then 0 else (if s[0] as int > 0xFFFF then 2 else 1) + Utf16Length(s[1..])
  }

  function DigitChar(d: nat): char
    requires d < 10
  {
    ('0' as int + d) as char
  }

  predicate IsDigit(c: char) {
    '0' <= c <= '9'
  }

  predicate AllDigits(s: string) {
    forall i :: 0 <= i < |s| ==> IsDigit(s[i])
  }

  function DigitValue(c: char): (v: nat)
    requires IsDigit(c)
    ensures v <= 9
  {
    c as int - '0' as int
  }

  /** `String(n)` for a natural number: its decimal digits without leading zeros. */
  function NatToString(n: nat): (r: string)
    ensures r != []
    ensures forall i :: 0 <= i < |r| ==> IsDigit(r[i])
  {
    if n < 10 then [DigitChar(n)] else NatToString(n / 10) + [DigitChar(n % 10)]
  }

  /** `String(i)` for an integer. */
  function IntToString(i: int): (r: string)
    ensures r != []
  {
    if i < 0 then "-" + NatToString(-i) else NatToString(i)
  }

  /** The value of a string of decimal digits (the reading `parseInt` gives it). */
  function DecimalValue(s: string): nat
    requires forall i :: 0 <= i < |s| ==> IsDigit(s[i])
  {
    if s == [] then 0 else DecimalValue(s[..|s| - 1]) * 10 + DigitValue(s[|s| - 1])
  }

  lemma DecimalValueOfDigit(c: char)
    requires IsDigit(c)
    ensures DecimalValue([c]) == DigitValue(c)
  {
    assert [c][..0] == [];
  }

  /** Reading back the decimal rendering of a number gives the number. */
  lemma {:induction false} DecimalOfNatToString(n: nat)
    ensures DecimalValue(NatToString(n)) == n
  {
    if n >= 10 {
      var s := NatToString(n);
      assert s[..|s| - 1] == NatToString(n / 10);
      DecimalOfNatToString(n / 10);
    }
  }

  /** Distinct numbers have distinct decimal renderings. */
  lemma NatToStringInjective(m: nat, n: nat)
    requires NatToString(m) == NatToString(n)
    ensures m == n
  {
    DecimalOfNatToString(m);
    DecimalOfNatToString(n);
  }

  function Pow10(w: nat): (p: nat)
    ensures p >= 1
  {
    if w == 0 then 1 else 10 * Pow10(w - 1)
  }

  /** A number below 10^w has at most w decimal digits. */
  lemma {:induction false} NatToStringLength(n: nat, w: nat)
    requires 1 <= w && n < Pow10(w)
    ensures |NatToString(n)| <= w
  {
    if n >= 10 {
      assert w >= 2;
      NatToStringLength(n / 10, w - 1);
    }
  }

  /** `s.split(sep)` with a one-character separator: the pieces between separators, empty ones included. */
  function Split(s: string, sep: char): (parts: seq<string>)
    ensures |parts| >= 1
  {
    if s == [] then [[]]
    else
      var rest := Split(s[1..], sep);
      if s[0] == sep then [[]] + rest else [[s[0]] + rest[0]] + rest[1..]
  }

  lemma {:induction false} SplitWithout(s: string, sep: char)
    requires sep !in s
    ensures Split(s, sep) == [s]
  {
    if s != [] {
      SplitWithout(s[1..], sep);
      assert [s[0]] + s[1..] == s;
    }
  }

  lemma {:induction false} SplitAt(a: string, sep: char, b: string)
    requires sep !in a
    ensures Split(a + [sep] + b, sep) == [a] + Split(b, sep)
  {
    if a == [] {
      assert a + [sep] + b == [sep] + b;
      assert ([sep] + b)[1..] == b;
    } else {
      assert (a + [sep] + b)[1..] == a[1..] + [sep] + b;
      SplitAt(a[1..], sep, b);
      assert [a[0]] + a[1..] == a;
    }
  }

  /** `parts.join(sep)`. */
  function Join(parts: seq<string>, sep: string): string {
    if parts == [] then []
    else if |parts| == 1 then parts[0]
    else parts[0] + sep + Join(parts[1..], sep)
  }
}
