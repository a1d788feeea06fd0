/**
 * The JavaScript string primitives the worker relies on, over `seq<char>`:
 * `trim` (ECMAScript white space and line terminators), ASCII `toLowerCase` /
 * `toUpperCase`, `split` on one character, `join`, `startsWith` (Dafny's prefix
 * operator `<=`), decimal digit strings as read by `parseInt(_, 10)` and `\d+`,
 * and the UTF-16 length that `String.prototype.length` reports.
 */
module Strings {
  import opened Seqs

  /** The characters `String.prototype.trim` and the regex class `\s` treat as white space. */
  predicate IsWhitespace(c: char)
  {
    || ('\t' <= c <= '\r')          // tab, line feed, vertical tab, form feed, carriage return
    || c == ' ' || c == '\U{A0}' || c == '\U{1680}'
    || ('\U{2000}' <= c <= '\U{200A}')
    || c == '\U{2028}' || c == '\U{2029}' || c == '\U{202F}' || c == '\U{205F}'
    || c == '\U{3000}' || c == '\U{FEFF}'
  }

  predicate IsNonEmpty(s: string)
  {
    |s| > 0
  }

  // ---------------------------------------------------------------- case

  function LowerChar(c: char): char
  {
    if 'A' <= c <= 'Z' then (c as int + 32) as char else c
  }

  function UpperChar(c: char): char
  {
    if 'a' <= c <= 'z' then (c as int - 32) as char else c
  }

  /** `toLowerCase`, restricted to ASCII letters. */
  function ToLower(s: string): string
  {
    Map(LowerChar, s)
  }

  /** `toUpperCase`, restricted to ASCII letters. */
  function ToUpper(s: string): string
  {
    Map(UpperChar, s)
  }

  lemma ToLowerIdempotent(s: string)
    ensures ToLower(ToLower(s)) == ToLower(s)
  {
  }

  lemma ToUpperIdempotent(s: string)
    ensures ToUpper(ToUpper(s)) == ToUpper(s)
  {
  }

  /** Upper-casing forgets an earlier lower-casing. */
  lemma ToUpperOfToLower(s: string)
    ensures ToUpper(ToLower(s)) == ToUpper(s)
  {
  }

  /** Lower-casing forgets an earlier upper-casing. */
  lemma ToLowerOfToUpper(s: string)
    ensures ToLower(ToUpper(s)) == ToLower(s)
  {
  }

  // ---------------------------------------------------------------- trim

  /** `trimStart`: drops the longest white-space prefix. */
  function TrimStart(s: string): (r: string)
    ensures |r| <= |s| && r == s[|s| - |r|..]
    ensures forall i :: 0 <= i < |s| - |r| ==> IsWhitespace(s[i])
    ensures |r| > 0 ==> !IsWhitespace(r[0])
  {
    if |s| > 0 && IsWhitespace(s[0]) then TrimStart(s[1..]) else s
  }

  /** `trimEnd`: drops the longest white-space suffix. */
  function TrimEnd(s: string): (r: string)
    ensures |r| <= |s| && r == s[..|r|]
    ensures forall i :: |r| <= i < |s| ==> IsWhitespace(s[i])
    ensures |r| > 0 ==> !IsWhitespace(r[|r| - 1])
  {
    if |s| > 0 && IsWhitespace(s[|s| - 1]) then TrimEnd(s[..|s| - 1]) else s
  }

  /** `trim` */
  function Trim(s: string): (r: string)
    ensures |r| > 0 ==> !IsWhitespace(r[0]) && !IsWhitespace(r[|r| - 1])
  {
    TrimEnd(TrimStart(s))
  }

  lemma TrimIdempotent(s: string)
    ensures Trim(Trim(s)) == Trim(s)
  {
    var t := Trim(s);
    assert TrimStart(t) == t;
    assert TrimEnd(t) == t;
  }

  /** A character map that neither creates nor destroys white space commutes with `trim`. */
  lemma {:induction false} TrimStartMap(f: char -> char, s: string)
    requires forall c :: IsWhitespace(f(c)) <==> IsWhitespace(c)
    ensures Map(f, TrimStart(s)) == TrimStart(Map(f, s))
    decreases |s|
  {
    if |s| > 0 && IsWhitespace(s[0]) {
      assert Map(f, s)[1..] == Map(f, s[1..]);
      TrimStartMap(f, s[1..]);
    }
  }

  lemma {:induction false} TrimEndMap(f: char -> char, s: string)
    requires forall c :: IsWhitespace(f(c)) <==> IsWhitespace(c)
    ensures Map(f, TrimEnd(s)) == TrimEnd(Map(f, s))
    decreases |s|
  {
    if |s| > 0 && IsWhitespace(s[|s| - 1]) {
      assert Map(f, s)[..|s| - 1] == Map(f, s[..|s| - 1]);
      TrimEndMap(f, s[..|s| - 1]);
    }
  }

  lemma TrimMap(f: char -> char, s: string)
    requires forall c :: IsWhitespace(f(c)) <==> IsWhitespace(c)
    ensures Map(f, Trim(s)) == Trim(Map(f, s))
  {
    TrimStartMap(f, s);
    TrimEndMap(f, TrimStart(s));
  }

  lemma ToLowerTrim(s: string)
    ensures ToLower(Trim(s)) == Trim(ToLower(s))
  {
    forall c: char
      ensures IsWhitespace(LowerChar(c)) <==> IsWhitespace(c)
    {
      if 'A' <= c <= 'Z' {
        assert 'a' <= LowerChar(c) <= 'z';
      }
    }
    TrimMap(LowerChar, s);
  }

  lemma ToUpperTrim(s: string)
    ensures ToUpper(Trim(s)) == Trim(ToUpper(s))
  {
    forall c: char
      ensures IsWhitespace(UpperChar(c)) <==> IsWhitespace(c)
    {
      if 'a' <= c <= 'z' {
        assert 'A' <= UpperChar(c) <= 'Z';
      }
    }
    TrimMap(UpperChar, s);
  }

  /** Normalising a header value twice (`trim().toLowerCase()`) is the same as normalising it once. */
  lemma LowerTrimIdempotent(s: string)
    ensures ToLower(Trim(ToLower(Trim(s)))) == ToLower(Trim(s))
  {
    ToLowerTrim(Trim(s));
    TrimIdempotent(s);
    ToLowerIdempotent(Trim(s));
  }

  /** Case and surrounding white space of the input never matter to `trim().toLowerCase()`. */
  lemma LowerTrimAbsorbs(s: string)
    ensures ToLower(Trim(ToUpper(s))) == ToLower(Trim(s))
    ensures ToLower(Trim(Trim(s))) == ToLower(Trim(s))
  {
    ToUpperTrim(s);
    ToLowerOfToUpper(Trim(s));
    TrimIdempotent(s);
  }

  /** Case and surrounding white space of the input never matter to `trim().toUpperCase()`. */
  lemma UpperTrimAbsorbs(s: string)
    ensures ToUpper(Trim(ToLower(s))) == ToUpper(Trim(s))
    ensures ToUpper(Trim(Trim(s))) == ToUpper(Trim(s))
  {
    ToLowerTrim(s);
    ToUpperOfToLower(Trim(s));
    TrimIdempotent(s);
  }

  // ---------------------------------------------------------------- split and join

  /** `s.split(sep)` for a one-character separator: never empty, no piece holds `sep`. */
  function Split(s: string, sep: char): (parts: seq<string>)
    ensures |parts| >= 1
    ensures forall i :: 0 <= i < |parts| ==> sep !in parts[i]
  {
    if |s| == 0 then [""]
    else
      var rest := Split(s[1..], sep);
      if s[0] == sep then [""] + rest else [[s[0]] + rest[0]] + rest[1..]
  }

  /** `s.split(/\s/)`: splitting at every white-space character. */
  function SplitWhitespace(s: string): (parts: seq<string>)
    ensures |parts| >= 1
    ensures forall i, j :: 0 <= i < |parts| && 0 <= j < |parts[i]| ==> !IsWhitespace(parts[i][j])
  {
    if |s| == 0 then [""]
    else
      var rest := SplitWhitespace(s[1..]);
      if IsWhitespace(s[0]) then [""] + rest else [[s[0]] + rest[0]] + rest[1..]
  }

  /** `parts.join(sep)` */
  function Join(parts: seq<string>, sep: string): string
  {
    if |parts| == 0 then ""
    else if |parts| == 1 then parts[0]
    else parts[0] + sep + Join(parts[1..], sep)
  }

  /** `split` and `join` with the same separator are inverse: nothing of the input is lost. */
  lemma {:induction false} SplitJoin(s: string, sep: char)
    ensures Join(Split(s, sep), [sep]) == s
    decreases |s|
  {
    if |s| > 0 {
      var rest := Split(s[1..], sep);
      SplitJoin(s[1..], sep);
      if s[0] != sep {
        if |rest| == 1 {
        } else {
          assert Split(s, sep)[1..] == rest[1..];
          assert Join(rest, [sep]) == rest[0] + [sep] + Join(rest[1..], [sep]);
        }
      } else {
        assert Split(s, sep)[1..] == rest;
      }
    }
  }

  /** A string without the separator is its own single piece. */
  lemma {:induction false} SplitNoSeparator(s: string, sep: char)
    requires sep !in s
    ensures Split(s, sep) == [s]
    decreases |s|
  {
    if |s| > 0 {
      assert s[0] != sep && sep !in s[1..];
      SplitNoSeparator(s[1..], sep);
      assert [s[0]] + s[1..] == s;
    }
  }

  /** Splitting `a + sep + b` when `a` has no separator: `a` is the first piece, `b`'s pieces follow. */
  lemma {:induction false} SplitCons(a: string, sep: char, b: string)
    requires sep !in a
    ensures Split(a + [sep] + b, sep) == [a] + Split(b, sep)
    decreases |a|
  {
    if |a| == 0 {
      assert a + [sep] + b == [sep] + b;
      assert ([sep] + b)[1..] == b;
    } else {
      assert (a + [sep] + b)[1..] == a[1..] + [sep] + b;
      assert sep !in a[1..];
      SplitCons(a[1..], sep, b);
      assert [a[0]] + a[1..] == a;
    }
  }

  // ---------------------------------------------------------------- quotes

  /** `s.replace(/^q|q$/g, '')`: removes one leading and one trailing `q`. */
  function StripQuotes(s: string, q: char): (r: string)
    ensures |r| <= |s|
  {
    var a := if |s| > 0 && s[0] == q then s[1..] else s;
    if |a| > 0 && a[|a| - 1] == q then a[..|a| - 1] else a
  }

  // ---------------------------------------------------------------- decimal digits

  /** `\d`: an ASCII decimal digit. */
  predicate IsDigit(c: char)
  {
    '0' <= c <= '9'
  }

  predicate AllDigits(s: string)
  {
    forall i :: 0 <= i < |s| ==> IsDigit(s[i])
  }

  function DigitValue(c: char): (d: nat)
    requires IsDigit(c)
    ensures d < 10
  {
    c as int - '0' as int
  }

  function DigitChar(d: nat): (c: char)
    requires d < 10
    ensures IsDigit(c) && DigitValue(c) == d
  {
    ('0' as int + d) as char
  }

  /** The number a run of decimal digits denotes (most significant digit first). */
  function DigitsValue(s: string): nat
    requires AllDigits(s)
    decreases |s|
  {
    if |s| == 0 then 0 else DigitsValue(s[..|s| - 1]) * 10 + DigitValue(s[|s| - 1])
  }

  /** The shortest decimal spelling of `n`, without leading zeros. */
  function ToDecimal(n: nat): (s: string)
    ensures |s| >= 1 && AllDigits(s)
    ensures |s| > 1 ==> s[0] != '0'
  {
    if n < 10 then [DigitChar(n)] else ToDecimal(n / 10) + [DigitChar(n % 10)]
  }

  /** Reading back the decimal spelling of `n` gives `n`. */
  lemma {:induction false} DecimalRoundTrip(n: nat)
    ensures DigitsValue(ToDecimal(n)) == n
  {
    if n >= 10 {
      var s := ToDecimal(n);
      assert s[..|s| - 1] == ToDecimal(n / 10);
      DecimalRoundTrip(n / 10);
    }
  }

  /** The longest prefix of `s` made of decimal digits (what `\d+` and `parseInt` consume). */
  function LeadingDigits(s: string): (d: string)
    ensures d <= s && AllDigits(d)
    ensures |d| < |s| ==> !IsDigit(s[|d|])
  {
    if |s| > 0 && IsDigit(s[0]) then [s[0]] + LeadingDigits(s[1..]) else ""
  }

  /** A digit run followed by a non-digit is exactly what `LeadingDigits` takes. */
  lemma {:induction false} LeadingDigitsOf(d: string, rest: string)
    requires AllDigits(d)
    requires |rest| > 0 ==> !IsDigit(rest[0])
    ensures LeadingDigits(d + rest) == d
    decreases |d|
  {
    if |d| > 0 {
      assert (d + rest)[1..] == d[1..] + rest;
      LeadingDigitsOf(d[1..], rest);
    } else {
      assert d + rest == rest;
    }
  }

  // ---------------------------------------------------------------- length

  /** `String.prototype.length`: UTF-16 code units, two for a character above U+FFFF. */
  function Utf16Length(s: string): (n: nat)
    ensures |s| <= n <= 2 * |s|
  {
    if |s| == 0 then 0 else (if s[0] as int > 0xFFFF then 2 else 1) + Utf16Length(s[1..])
  }
}
