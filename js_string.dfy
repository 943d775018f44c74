/**
 * The JavaScript string built-ins the core relies on, stated over Dafny strings:
 * `split`/`join` with a one-character separator, `length` (UTF-16 code units),
 * the whitespace class of `\s` and of `parseInt`, ASCII `toLowerCase`, and the
 * global `parseInt` without a radix.
 */
module JsString {
  import opened Wrappers

  /** Joining strings is associative; stated once so that proofs need not rediscover it. */
  lemma Associative(x: string, y: string, z: string)
    ensures x + (y + z) == (x + y) + z
  {
  }

  /** Number of occurrences of `c` in `s`. */
  function Count(s: string, c: char): (n: nat)
    ensures n <= |s|
  {
    if s == [] then 0 else (if s[0] == c then 1 else 0) + Count(s[1..], c)
  }

  lemma {:induction false} CountAbsent(s: string, c: char)
    requires c !in s
    ensures Count(s, c) == 0
  {
    if s != [] {
      assert c !in s[1..];
      CountAbsent(s[1..], c);
    }
  }

  lemma {:induction false} CountAppend(a: string, b: string, c: char)
    ensures Count(a + b, c) == Count(a, c) + Count(b, c)
  {
    if a != [] {
      assert (a + b)[1..] == a[1..] + b;
      CountAppend(a[1..], b, c);
    } else {
      assert a + b == b;
    }
  }

  // ---------------------------------------------------------------------------
  // split / join

  /** `s.split(sep)`: the maximal pieces between occurrences of `sep`; never empty. */
  function Split(s: string, sep: char): (parts: seq<string>)
    ensures |parts| == Count(s, sep) + 1
    ensures forall i :: 0 <= i < |parts| ==> sep !in parts[i]
  {
    if s == [] then [""]
    else
      var rest := Split(s[1..], sep);
      if s[0] == sep then [""] + rest
      else [[s[0]] + rest[0]] + rest[1..]
  }

  /** `parts.join(sep)`. */
  function Join(parts: seq<string>, sep: char): (r: string)
    ensures |parts| >= 1 ==> parts[0] <= r
    ensures |parts| >= 2 ==> parts[0] + [sep] <= r
  {
    if |parts| == 0 then ""
    else if |parts| == 1 then parts[0]
    else parts[0] + [sep] + Join(parts[1..], sep)
  }

  /** Joining the pieces of a split gives back the original string. */
  lemma {:induction false} JoinSplit(s: string, sep: char)
    ensures Join(Split(s, sep), sep) == s
  {
    if s != [] {
      var rest := Split(s[1..], sep);
      JoinSplit(s[1..], sep);
      if s[0] == sep {
        assert ([""] + rest)[1..] == rest;
      } else if |rest| >= 2 {
        var parts := [[s[0]] + rest[0]] + rest[1..];
        assert parts[1..] == rest[1..];
      }
    }
  }

  /** A string without the separator splits into itself alone. */
  lemma {:induction false} SplitWithoutSeparator(a: string, sep: char)
    requires sep !in a
    ensures Split(a, sep) == [a]
  {
    if a != [] {
      assert sep !in a[1..];
      SplitWithoutSeparator(a[1..], sep);
      assert [a[0]] + a[1..] == a;
    }
  }

  /** Splitting `a + sep + b`, where `a` has no separator, yields `a` followed by the pieces of `b`. */
  lemma {:induction false} SplitAround(a: string, sep: char, b: string)
    requires sep !in a
    ensures Split(a + [sep] + b, sep) == [a] + Split(b, sep)
  {
    if a == [] {
      assert a + [sep] + b == [sep] + b;
      assert ([sep] + b)[1..] == b;
    } else {
      var s := a + [sep] + b;
      assert s[1..] == a[1..] + [sep] + b;
      assert sep !in a[1..];
      SplitAround(a[1..], sep, b);
      assert [a[0]] + a[1..] == a;
    }
  }

  /** Splitting a join of separator-free pieces gives back the pieces. */
  lemma {:induction false} SplitJoin(parts: seq<string>, sep: char)
    requires |parts| >= 1
    requires forall i :: 0 <= i < |parts| ==> sep !in parts[i]
    ensures Split(Join(parts, sep), sep) == parts
  {
    if |parts| == 1 {
      SplitWithoutSeparator(parts[0], sep);
    } else {
      SplitJoin(parts[1..], sep);
      SplitAround(parts[0], sep, Join(parts[1..], sep));
      assert [parts[0]] + parts[1..] == parts;
    }
  }

  /** The join of the first `k` pieces is a prefix of the join of all of them. */
  lemma {:induction false} JoinPrefix(parts: seq<string>, sep: char, k: nat)
    requires 1 <= k <= |parts|
    ensures Join(parts[..k], sep) <= Join(parts, sep)
  {
    if k == |parts| {
      assert parts[..k] == parts;
    } else if k == 1 {
      assert parts[..1] == [parts[0]];
      assert Join(parts, sep) == parts[0] + ([sep] + Join(parts[1..], sep));
    } else {
      JoinPrefix(parts[1..], sep, k - 1);
      assert parts[..k][1..] == parts[1..][..k - 1];
      var head := parts[0] + [sep];
      var a, b := Join(parts[1..][..k - 1], sep), Join(parts[1..], sep);
      assert Join(parts[..k], sep) == head + a;
      assert Join(parts, sep) == head + b;
      assert (head + b)[..|head + a|] == head + a;
    }
  }

  /** Joining `n` separator-free pieces writes exactly `n - 1` separators. */
  lemma {:induction false} CountJoin(parts: seq<string>, sep: char)
    requires |parts| >= 1
    requires forall i :: 0 <= i < |parts| ==> sep !in parts[i]
    ensures Count(Join(parts, sep), sep) == |parts| - 1
  {
    if |parts| == 1 {
      CountAbsent(parts[0], sep);
    } else {
      CountJoin(parts[1..], sep);
      CountAbsent(parts[0], sep);
      CountAppend(parts[0], [sep], sep);
      CountAppend(parts[0] + [sep], Join(parts[1..], sep), sep);
    }
  }

  // ---------------------------------------------------------------------------
  // length in UTF-16 code units

  /** `s.length`: characters outside the Basic Multilingual Plane take two code units. */
  function JsLength(s: string): (n: nat)
    ensures |s| <= n <= 2 * |s|
  {
    if s == [] then 0 else (if s[0] as int > 0xFFFF then 2 else 1) + JsLength(s[1..])
  }

  /** Every character is in the Basic Multilingual Plane. */
  predicate InBmp(s: string)
  {
    forall i :: 0 <= i < |s| ==> s[i] as int <= 0xFFFF
  }

  lemma {:induction false} JsLengthInBmp(s: string)
    requires InBmp(s)
    ensures JsLength(s) == |s|
  {
    if s != [] {
      assert InBmp(s[1..]) by {
        forall i | 0 <= i < |s[1..]| ensures s[1..][i] as int <= 0xFFFF {
          assert s[1..][i] == s[i + 1];
        }
      }
      JsLengthInBmp(s[1..]);
    }
  }

  /** The same fact as a conditional, for use inside expressions. */
  lemma JsLengthIfBmp(s: string)
    ensures InBmp(s) ==> JsLength(s) == |s|
  {
  }

  // ---------------------------------------------------------------------------
  // character classes and case

  /** The characters matched by the regular-expression class `\s`, which are also those `parseInt` skips. */
  predicate IsJsWhitespace(c: char)
  {
    || c == '\t' || c == '\n' || c == '\U{000B}' || c == '\U{000C}' || c == '\r' || c == ' '
    || c == '\U{00A0}' || c == '\U{1680}' || ('\U{2000}' <= c <= '\U{200A}')
    || c == '\U{2028}' || c == '\U{2029}' || c == '\U{202F}' || c == '\U{205F}'
    || c == '\U{3000}' || c == '\U{FEFF}'
  }

  predicate IsAsciiUpper(c: char) { 'A' <= c <= 'Z' }

  predicate IsDecimalDigit(c: char) { '0' <= c <= '9' }

  function AsciiLowerChar(c: char): (d: char)
    ensures IsAsciiUpper(c) ==> d as int == c as int + 32
    ensures !IsAsciiUpper(c) ==> d == c
  {
    if IsAsciiUpper(c) then (c as int + 32) as char else c
  }

  /** `s.toLowerCase()` restricted to ASCII letters: each capital moves 32 code points up, the rest stay. */
  function AsciiLower(s: string): (r: string)
    ensures |r| == |s|
    ensures forall i :: 0 <= i < |s| ==> r[i] == AsciiLowerChar(s[i])
  {
    seq(|s|, i requires 0 <= i < |s| => AsciiLowerChar(s[i]))
  }

  lemma AsciiLowerIdempotent(s: string)
    ensures AsciiLower(AsciiLower(s)) == AsciiLower(s)
  {
  }

  // ---------------------------------------------------------------------------
  // parseInt(s) with no radix

  /** The string with its leading whitespace removed. */
  function TrimStart(s: string): (t: string)
    ensures |t| <= |s| && t == s[|s| - |t|..]
    ensures t != [] ==> !IsJsWhitespace(t[0])
  {
    if s != [] && IsJsWhitespace(s[0]) then TrimStart(s[1..]) else s
  }

  /** `TrimStart` removes whitespace and nothing else. */
  lemma {:induction false} TrimStartDropsOnlyWhitespace(s: string)
    ensures forall i :: 0 <= i < |s| - |TrimStart(s)| ==> IsJsWhitespace(s[i])
  {
    if s != [] && IsJsWhitespace(s[0]) {
      var rest := s[1..];
      TrimStartDropsOnlyWhitespace(rest);
      assert TrimStart(s) == TrimStart(rest);
      forall i | 1 <= i < |s| - |TrimStart(s)|
        ensures IsJsWhitespace(s[i])
      {
        assert s[i] == rest[i - 1];
      }
    }
  }

  /** Value of a digit in the given radix (10 or 16, both letter cases), if it is one. */
  function DigitValue(c: char, radix: nat): (v: Option<nat>)
    ensures v.Some? ==> v.value < radix
  {
    if '0' <= c <= '9' && (c as int - '0' as int) < radix then Some(c as int - '0' as int)
    else if radix == 16 && 'a' <= c <= 'f' then Some(c as int - 'a' as int + 10)
    else if radix == 16 && 'A' <= c <= 'F' then Some(c as int - 'A' as int + 10)
    else None
  }

  /** The longest prefix of `s` made of digits of the radix. */
  function DigitPrefix(s: string, radix: nat): (d: string)
    ensures d <= s
    ensures forall i :: 0 <= i < |d| ==> DigitValue(d[i], radix).Some?
    ensures |d| < |s| ==> DigitValue(s[|d|], radix).None?
  {
    if s != [] && DigitValue(s[0], radix).Some? then [s[0]] + DigitPrefix(s[1..], radix) else ""
  }

  /** The number a string of digits denotes, most significant digit first. */
  function DigitsValue(d: string, radix: nat): nat
    requires forall i :: 0 <= i < |d| ==> DigitValue(d[i], radix).Some?
  {
    if d == [] then 0
    else DigitsValue(d[..|d| - 1], radix) * radix + DigitValue(d[|d| - 1], radix).value
  }

  /**
   * The number after the sign: hexadecimal after `0x`/`0X`, decimal otherwise, read
   * up to the first character that is not a digit; `None` when there is no digit.
   */
  function ParseMagnitude(u: string): (r: Option<nat>)
    ensures u == [] ==> r.None?
  {
    var hex := |u| >= 2 && u[0] == '0' && (u[1] == 'x' || u[1] == 'X');
    var radix := if hex then 16 else 10;
    var digits := DigitPrefix(if hex then u[2..] else u, radix);
    if digits == [] then None else Some(DigitsValue(digits, radix))
  }

  /** An optional sign, then the magnitude; only '-' makes the number negative. */
  function ParseSigned(t: string): (r: Option<int>)
    ensures t == [] ==> r.None?
    ensures r.Some? && r.value < 0 ==> t[0] == '-'
  {
    var negative := t != [] && t[0] == '-';
    var u := if t != [] && (t[0] == '-' || t[0] == '+') then t[1..] else t;
    match ParseMagnitude(u)
    case None => None
    case Some(m) => Some(if negative then -(m as int) else m)
  }

  /**
   * `parseInt(s)`: skip leading whitespace, take an optional sign, read a hexadecimal
   * number after `0x`/`0X` or a decimal one otherwise, and stop at the first character
   * that is not a digit; `None` is NaN (no digit at all).
   */
  function ParseInt(s: string): (r: Option<int>)
    ensures TrimStart(s) == [] ==> r.None?
    ensures r.Some? && r.value < 0 ==> TrimStart(s)[0] == '-'
  {
    ParseSigned(TrimStart(s))
  }

  /** A string with no decimal digit anywhere is NaN to `parseInt`. */
  lemma NoDigitIsNaN(s: string)
    requires forall i :: 0 <= i < |s| ==> !IsDecimalDigit(s[i])
    ensures ParseInt(s) == None
  {
  }

  // Decimal rendering, the inverse of parseInt on integers.

  function DecimalDigit(n: nat): (c: char)
    requires n < 10
    ensures IsDecimalDigit(c) && DigitValue(c, 10) == Some(n)
  {
    ('0' as int + n) as char
  }

  /** The decimal numeral of a natural number, without leading zeros. */
  function NatToDecimal(n: nat): (s: string)
    ensures s != []
    ensures forall i :: 0 <= i < |s| ==> IsDecimalDigit(s[i])
    ensures |s| >= 2 ==> s[0] != '0'
  {
    if n < 10 then [DecimalDigit(n)] else NatToDecimal(n / 10) + [DecimalDigit(n % 10)]
  }

  /** `String(n)` for an integer `n`. */
  function IntToDecimal(n: int): string
  {
    if n < 0 then "-" + NatToDecimal(-n) else NatToDecimal(n)
  }

  lemma {:induction false} NatToDecimalValue(n: nat)
    ensures DigitsValue(NatToDecimal(n), 10) == n
  {
    if n >= 10 {
      var s := NatToDecimal(n);
      NatToDecimalValue(n / 10);
      assert s[..|s| - 1] == NatToDecimal(n / 10);
    }
  }

  lemma DigitPrefixOfDigits(s: string)
    requires forall i :: 0 <= i < |s| ==> IsDecimalDigit(s[i])
    ensures DigitPrefix(s, 10) == s
  {
  }

  /** A numeral: decimal digits, without a leading zero unless it is "0". */
  predicate IsNumeral(d: string)
  {
    && d != []
    && (forall i :: 0 <= i < |d| ==> IsDecimalDigit(d[i]))
    && (|d| >= 2 ==> d[0] != '0')
  }

  lemma ParseMagnitudeOfNumeral(d: string)
    requires IsNumeral(d)
    ensures ParseMagnitude(d) == Some(DigitsValue(d, 10))
  {
    assert |d| < 2 || d[0] != '0';
    DigitPrefixOfDigits(d);
  }

  /** A string that does not start with whitespace is not trimmed. */
  lemma TrimStartOfNonSpace(s: string)
    requires s != [] && !IsJsWhitespace(s[0])
    ensures TrimStart(s) == s
  {
  }

  /** Without a sign, `parseInt` reads the magnitude as it is. */
  lemma ParseSignedUnsigned(t: string, m: nat)
    requires t != [] && t[0] != '-' && t[0] != '+'
    requires ParseMagnitude(t) == Some(m)
    ensures ParseSigned(t) == Some(m)
  {
  }

  /** A leading '-' negates the magnitude that follows it. */
  lemma ParseSignedMinus(t: string, m: nat)
    requires t != [] && t[0] == '-'
    requires ParseMagnitude(t[1..]) == Some(m)
    ensures ParseSigned(t) == Some(-(m as int))
  {
  }

  lemma ParseIntOfNumeral(d: string)
    requires IsNumeral(d)
    ensures ParseInt(d) == Some(DigitsValue(d, 10))
  {
    assert IsDecimalDigit(d[0]);
    TrimStartOfNonSpace(d);
    ParseMagnitudeOfNumeral(d);
    ParseSignedUnsigned(d, DigitsValue(d, 10));
  }

  /** `parseInt` of a '-' followed by a numeral is the numeral's value negated. */
  lemma ParseIntOfMinusNumeral(s: string)
    requires s != [] && s[0] == '-' && IsNumeral(s[1..])
    ensures ParseInt(s) == Some(-(DigitsValue(s[1..], 10) as int))
  {
    TrimStartOfNonSpace(s);
    ParseMagnitudeOfNumeral(s[1..]);
    ParseSignedMinus(s, DigitsValue(s[1..], 10));
  }

  lemma ParseIntOfNegativeNumeral(d: string)
    requires IsNumeral(d)
    ensures ParseInt("-" + d) == Some(-(DigitsValue(d, 10) as int))
  {
    var s := "-" + d;
    assert s[0] == '-' && s[1..] == d;
    ParseIntOfMinusNumeral(s);
  }

  /** `parseInt(String(n)) == n` for every integer `n`. */
  lemma ParseIntOfDecimal(n: int)
    ensures ParseInt(IntToDecimal(n)) == Some(n)
  {
    var m: nat := if n < 0 then -n else n;
    NatToDecimalValue(m);
    if n < 0 {
      ParseIntOfNegativeNumeral(NatToDecimal(m));
    } else {
      ParseIntOfNumeral(NatToDecimal(m));
    }
  }
}
