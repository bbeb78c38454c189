/**
 * The string primitives the JavaScript source relies on: `trim`, `toLowerCase`,
 * `includes`, `split`, the `\s` and `\d` regular-expression classes and `parseInt`.
 */
module Text {
  import opened Wrappers

  /** JavaScript's WhiteSpace and LineTerminator code points: what `trim`, `\s` and `parseInt` skip. */
  predicate IsSpace(c: char) {
    c == '\t' || c == '\n' || c == '\U{B}' || c == '\U{C}' || c == '\r' || c == ' ' ||
    c == '\U{A0}' || c == '\U{1680}' || ('\U{2000}' <= c <= '\U{200A}') ||
    c == '\U{2028}' || c == '\U{2029}' || c == '\U{202F}' || c == '\U{205F}' ||
    c == '\U{3000}' || c == '\U{FEFF}'
  }

  /** The `\d` class: ASCII decimal digits only. */
  predicate IsDigit(c: char) {
    '0' <= c <= '9'
  }

  function DigitValue(c: char): int
    requires IsDigit(c)
  {
    c as int - '0' as int
  }

  /** Lower-casing of ASCII and Latin-1 capitals (enough for "SÍ", "MAÑANA", "CANCELAR"). */
  function LowerChar(c: char): char {
    if 'A' <= c <= 'Z' then (c as int + 32) as char
    else if '\U{C0}' <= c <= '\U{DE}' && c != '\U{D7}' then (c as int + 32) as char
    else c
  }

  function ToLower(s: string): (r: string)
    ensures |r| == |s|
    ensures forall i :: 0 <= i < |s| ==> r[i] == LowerChar(s[i])
  {
    seq(|s|, i requires 0 <= i < |s| => LowerChar(s[i]))
  }

  /** No ASCII or Latin-1 capital is left after lower-casing. */
  lemma ToLowerNoCapitals(s: string)
    ensures forall i | 0 <= i < |s| :: !('A' <= ToLower(s)[i] <= 'Z')
    ensures forall i | 0 <= i < |s| :: !('\U{C0}' <= ToLower(s)[i] <= '\U{DE}' && ToLower(s)[i] != '\U{D7}')
  {
  }

  /** Lower-casing twice is lower-casing once. */
  lemma ToLowerIdempotent(s: string)
    ensures ToLower(ToLower(s)) == ToLower(s)
  {
    var r := ToLower(s);
    assert forall i | 0 <= i < |r| :: LowerChar(r[i]) == r[i];
  }

  /**
   * `s.length`: the number of UTF-16 code units, two for a code point beyond U+FFFF (a
   * surrogate pair) and one for any other.
   */
  function Utf16Length(s: string): (n: nat)
    ensures |s| <= n <= 2 * |s|
    ensures n == |s| <==> forall i | 0 <= i < |s| :: s[i] as int < 0x1_0000
  {
    if s == [] then 0
    else
      var rest := Utf16Length(s[1..]);
      assert forall i | 1 <= i < |s| :: s[i] == s[1..][i - 1];
      (if s[0] as int < 0x1_0000 then 1 else 2) + rest
  }

  function TrimStart(s: string): (r: string)
    ensures |r| <= |s| && r == s[|s| - |r|..]
    ensures r == [] || !IsSpace(r[0])
  {
    if |s| > 0 && IsSpace(s[0]) then TrimStart(s[1..]) else s
  }

  function TrimEnd(s: string): (r: string)
    ensures |r| <= |s| && r == s[..|r|]
    ensures r == [] || !IsSpace(r[|r| - 1])
  {
    if |s| > 0 && IsSpace(s[|s| - 1]) then TrimEnd(s[..|s| - 1]) else s
  }

  /** `String.prototype.trim`. */
  function Trim(s: string): string {
    TrimEnd(TrimStart(s))
  }

  /** `sub` occurs in `s` starting at position `i`. */
  predicate OccursAt(s: string, sub: string, i: int) {
    0 <= i && i + |sub| <= |s| && s[i..i + |sub|] == sub
  }

  /** `s.includes(sub)`. */
  predicate Contains(s: string, sub: string) {
    exists i | 0 <= i <= |s| :: OccursAt(s, sub, i)
  }

  /** A text that contains `a + b` contains `b`. */
  lemma ContainsSuffix(s: string, a: string, b: string)
    requires Contains(s, a + b)
    ensures Contains(s, b)
  {
    var i :| 0 <= i <= |s| && OccursAt(s, a + b, i);
    assert s[i..i + |a + b|] == a + b;
    assert s[i + |a|..i + |a| + |b|] == (a + b)[|a|..];
    assert OccursAt(s, b, i + |a|);
  }

  /** An occurrence after the first character is an occurrence in the tail, one place earlier. */
  lemma OccursAtTail(s: string, sub: string, i: int)
    requires |s| >= 1 && i >= 1
    ensures OccursAt(s, sub, i) <==> OccursAt(s[1..], sub, i - 1)
  {
    if i + |sub| <= |s| {
      assert s[1..][i - 1..i - 1 + |sub|] == s[i..i + |sub|];
    }
  }

  /** The position of the first occurrence of `sub` in `s`, if any. */
  function IndexOf(s: string, sub: string): (r: Option<nat>)
    ensures r.Some? ==> OccursAt(s, sub, r.value)
    ensures r.Some? ==> forall j :: 0 <= j < r.value ==> !OccursAt(s, sub, j)
    ensures r.None? <==> !Contains(s, sub)
  {
    if |sub| > |s| then None
    else if s[..|sub|] == sub then assert OccursAt(s, sub, 0); Some(0)
    else
      assert forall i | i >= 1 :: OccursAt(s, sub, i) <==> OccursAt(s[1..], sub, i - 1) by {
        forall i | i >= 1 ensures OccursAt(s, sub, i) <==> OccursAt(s[1..], sub, i - 1) {
          OccursAtTail(s, sub, i);
        }
      }
      match IndexOf(s[1..], sub)
      case None => None
      case Some(k) => Some(k + 1)
  }

  /** `s.split(sep)` for a one-character separator. */
  function Split(s: string, sep: char): (parts: seq<string>)
    ensures |parts| >= 1
    ensures forall p :: p in parts ==> sep !in p
  {
    if |s| == 0 then [""]
    else
      var rest := Split(s[1..], sep);
      if s[0] == sep then [""] + rest else [[s[0]] + rest[0]] + rest[1..]
  }

  function Occurrences(s: string, c: char): nat {
    if |s| == 0 then 0 else (if s[0] == c then 1 else 0) + Occurrences(s[1..], c)
  }

  /** `split` yields one more part than there are separators. */
  lemma {:induction false} SplitCount(s: string, sep: char)
    ensures |Split(s, sep)| == Occurrences(s, sep) + 1
  {
    if |s| > 0 {
      SplitCount(s[1..], sep);
    }
  }

  function Join(parts: seq<string>, sep: char): string
    requires |parts| >= 1
  {
    if |parts| == 1 then parts[0] else parts[0] + [sep] + Join(parts[1..], sep)
  }

  /** Joining the parts with the separator gives the text back. */
  lemma {:induction false} SplitJoin(s: string, sep: char)
    ensures Join(Split(s, sep), sep) == s
  {
    if |s| > 0 {
      SplitJoin(s[1..], sep);
      var rest := Split(s[1..], sep);
      if s[0] != sep {
        if |rest| == 1 {
        } else {
          assert ([s[0]] + rest[0]) + [sep] + Join(rest[1..], sep) == [s[0]] + (rest[0] + [sep] + Join(rest[1..], sep));
        }
      }
    }
  }

  // ---------------------------------------------------------------- ordering

  /** Lexicographic order on code points; `Services.NameOrder` applies it to lower-cased names. */
  predicate AtMost(a: string, b: string) {
    if a == [] then true
    else if b == [] then false
    else a[0] < b[0] || (a[0] == b[0] && AtMost(a[1..], b[1..]))
  }

  lemma {:induction false} AtMostTotal(a: string, b: string)
    ensures AtMost(a, b) || AtMost(b, a)
  {
    if a != [] && b != [] && a[0] == b[0] {
      AtMostTotal(a[1..], b[1..]);
    }
  }

  lemma {:induction false} AtMostTransitive(a: string, b: string, c: string)
    requires AtMost(a, b) && AtMost(b, c)
    ensures AtMost(a, c)
  {
    if a != [] && b != [] && c != [] && a[0] == b[0] && b[0] == c[0] {
      AtMostTransitive(a[1..], b[1..], c[1..]);
    }
  }

  // ---------------------------------------------------------------- parseInt

  predicate IsRadixDigit(c: char, radix: int) {
    IsDigit(c) || (radix == 16 && ('a' <= c <= 'f' || 'A' <= c <= 'F'))
  }

  function RadixDigitValue(c: char): int {
    if IsDigit(c) then DigitValue(c)
    else if 'a' <= c <= 'f' then c as int - 'a' as int + 10
    else c as int - 'A' as int + 10
  }

  /** The longest prefix of `s` made of digits of the radix. */
  function DigitPrefix(s: string, radix: int): (r: string)
    ensures |r| <= |s| && r == s[..|r|]
    ensures forall i :: 0 <= i < |r| ==> IsRadixDigit(r[i], radix)
    ensures |r| < |s| ==> !IsRadixDigit(s[|r|], radix)
  {
    if |s| > 0 && IsRadixDigit(s[0], radix) then [s[0]] + DigitPrefix(s[1..], radix) else []
  }

  /** The value of a string of digits, most significant first. */
  function DigitsValue(ds: string, radix: int): int {
    if |ds| == 0 then 0 else DigitsValue(ds[..|ds| - 1], radix) * radix + RadixDigitValue(ds[|ds| - 1])
  }

  /**
   * `parseInt(s)` without a radix: leading white space, an optional sign, an optional
   * `0x`/`0X` prefix selecting base 16, then the longest run of digits; `None` is `NaN`.
   */
  function ParseInt(s: string): (r: Option<int>)
    ensures r.Some? ==> |TrimStart(s)| > 0 && (IsDigit(TrimStart(s)[0]) || TrimStart(s)[0] == '+' || TrimStart(s)[0] == '-')
    ensures r.Some? && r.value < 0 ==> TrimStart(s)[0] == '-'
  {
    ParseTrimmed(TrimStart(s))
  }

  /** `parseInt` once the leading white space is gone. */
  function ParseTrimmed(t: string): (r: Option<int>)
    ensures r.Some? ==> |t| > 0 && (IsDigit(t[0]) || t[0] == '+' || t[0] == '-')
    ensures r.Some? && r.value < 0 ==> t[0] == '-'
  {
    var negative := |t| > 0 && t[0] == '-';
    var u := if |t| > 0 && (t[0] == '-' || t[0] == '+') then t[1..] else t;
    if |u| >= 2 && u[0] == '0' && (u[1] == 'x' || u[1] == 'X') then Signed(negative, DigitPrefix(u[2..], 16), 16)
    else Signed(negative, DigitPrefix(u, 10), 10)
  }

  /** The value of the digits `ds`, negated when a minus sign preceded them; `NaN` when there are none. */
  function Signed(negative: bool, ds: string, radix: int): (r: Option<int>)
    requires radix >= 1 && forall i :: 0 <= i < |ds| ==> IsRadixDigit(ds[i], radix)
    ensures r.Some? <==> |ds| > 0
    ensures r.Some? && !negative ==> r.value >= 0
  {
    DigitsValueNonNegative(ds, radix);
    if |ds| == 0 then None
    else if negative then Some(-DigitsValue(ds, radix))
    else Some(DigitsValue(ds, radix))
  }

  /** Digits of a positive radix have a non-negative value. */
  lemma {:induction false} DigitsValueNonNegative(ds: string, radix: int)
    requires radix >= 1 && forall i :: 0 <= i < |ds| ==> IsRadixDigit(ds[i], radix)
    ensures DigitsValue(ds, radix) >= 0
  {
    if |ds| > 0 {
      DigitsValueNonNegative(ds[..|ds| - 1], radix);
      var v := DigitsValue(ds[..|ds| - 1], radix);
      assert v * radix >= 0;
    }
  }

  /** The decimal numeral of a natural number, as a user would type it. */
  function Numeral(n: nat): (r: string)
    ensures |r| >= 1 && forall i :: 0 <= i < |r| ==> IsDigit(r[i])
  {
    if n < 10 then [('0' as int + n) as char]
    else Numeral(n / 10) + [('0' as int + n % 10) as char]
  }

  lemma {:induction false} NumeralValue(n: nat)
    ensures DigitsValue(Numeral(n), 10) == n
  {
    if n >= 10 {
      NumeralValue(n / 10);
      var r := Numeral(n);
      assert r[..|r| - 1] == Numeral(n / 10);
    }
  }

  lemma {:induction false} DigitPrefixOfDigits(s: string, radix: int)
    requires forall i :: 0 <= i < |s| ==> IsDigit(s[i])
    ensures DigitPrefix(s, radix) == s
  {
    if |s| > 0 {
      DigitPrefixOfDigits(s[1..], radix);
    }
  }

  /** Text that starts with a decimal digit, not followed by an `x`, is read in base 10. */
  lemma ParseIntDecimal(s: string)
    requires |s| >= 1 && IsDigit(s[0]) && !(|s| >= 2 && (s[1] == 'x' || s[1] == 'X'))
    ensures ParseInt(s) == Some(DigitsValue(DigitPrefix(s, 10), 10))
  {
    TrimStartUnspaced(s);
    ParseTrimmedDecimal(s);
  }

  /** Text that does not open with white space is already trimmed. */
  lemma TrimStartUnspaced(s: string)
    requires |s| >= 1 && !IsSpace(s[0])
    ensures TrimStart(s) == s
  {
  }

  /** Trimmed text that opens with a decimal digit, not followed by an `x`, is read in base 10. */
  lemma ParseTrimmedDecimal(t: string)
    requires |t| >= 1 && IsDigit(t[0]) && !(|t| >= 2 && (t[1] == 'x' || t[1] == 'X'))
    ensures ParseTrimmed(t) == Some(DigitsValue(DigitPrefix(t, 10), 10))
  {
    var ds := DigitPrefix(t, 10);
    assert ParseTrimmed(t) == Signed(false, ds, 10) by {
      assert t[0] != '-' && t[0] != '+';
    }
    assert |ds| > 0 by {
      assert IsRadixDigit(t[0], 10);
    }
  }

  /** Text whose first non-blank character is a decimal digit, not opening `0x`, reads as a number of at least zero. */
  lemma ParseIntLeadingDigit(s: string)
    requires |TrimStart(s)| > 0 && IsDigit(TrimStart(s)[0])
    requires !(|TrimStart(s)| >= 2 && TrimStart(s)[0] == '0' && (TrimStart(s)[1] == 'x' || TrimStart(s)[1] == 'X'))
    ensures ParseInt(s).Some? && ParseInt(s).value >= 0
  {
    var t := TrimStart(s);
    var ds := DigitPrefix(t, 10);
    assert ParseTrimmed(t) == Signed(false, ds, 10) by {
      assert t[0] != '-' && t[0] != '+';
    }
    assert |ds| > 0 by {
      assert IsRadixDigit(t[0], 10);
    }
  }

  /** A non-empty run of decimal digits is read as its decimal value. */
  lemma ParseIntDigits(s: string)
    requires |s| >= 1 && forall i :: 0 <= i < |s| ==> IsDigit(s[i])
    ensures ParseInt(s) == Some(DigitsValue(s, 10))
  {
    assert !(|s| >= 2 && (s[1] == 'x' || s[1] == 'X')) by {
      if |s| >= 2 {
        assert IsDigit(s[1]);
      }
    }
    ParseIntDecimal(s);
    DigitPrefixOfDigits(s, 10);
  }

  /** `parseInt` reads back the numeral of every natural number. */
  lemma ParseIntNumeral(n: nat)
    ensures ParseInt(Numeral(n)) == Some(n)
  {
    ParseIntDigits(Numeral(n));
    NumeralValue(n);
  }
}
