/** The few string operations of the JavaScript standard library that the proxy
    relies on: `trim`, `toLowerCase`/`toUpperCase` (ASCII letters only),
    `includes`, `split(sep)[n]`, `replace(/\s+/g, r)`, `parseInt` and the
    decimal rendering of an integer in a template literal. */
module Text {
  import opened Wrappers

  /** The characters JavaScript's `trim` removes and its regular-expression
      class `\s` matches: WhiteSpace and LineTerminator of ECMA-262. */
  predicate IsWhitespace(c: char) {
    c == ' ' || c == '\t' || c == '\n' || c == '\r' || c == '\U{000B}' || c == '\U{000C}'
    || c == '\U{00A0}' || c == '\U{1680}' || ('\U{2000}' <= c <= '\U{200A}')
    || c == '\U{2028}' || c == '\U{2029}' || c == '\U{202F}' || c == '\U{205F}'
    || c == '\U{3000}' || c == '\U{FEFF}'
  }

  predicate NoWhitespace(s: string) {
    forall i :: 0 <= i < |s| ==> !IsWhitespace(s[i])
  }

  lemma NoWhitespaceConcat(a: string, b: string)
    requires NoWhitespace(a) && NoWhitespace(b)
    ensures NoWhitespace(a + b)
  {
    forall i | 0 <= i < |a + b| ensures !IsWhitespace((a + b)[i]) {
      if i >= |a| {
        assert (a + b)[i] == b[i - |a|];
      }
    }
  }

  predicate IsDigit(c: char) {
    '0' <= c <= '9'
  }

  predicate IsLowerLetter(c: char) {
    'a' <= c <= 'z'
  }

  predicate IsUpperLetter(c: char) {
    'A' <= c <= 'Z'
  }

  function LowerChar(c: char): char {
    if IsUpperLetter(c) then (c as int + 32) as char else c
  }

  function UpperChar(c: char): char {
    if IsLowerLetter(c) then (c as int - 32) as char else c
  }

  /** `s.toLowerCase()` restricted to ASCII letters. */
  function Lower(s: string): (r: string)
    ensures |r| == |s|
    ensures forall i :: 0 <= i < |s| ==> r[i] == LowerChar(s[i])
  {
    seq(|s|, i requires 0 <= i < |s| => LowerChar(s[i]))
  }

  /** `s.toUpperCase()` restricted to ASCII letters. */
  function Upper(s: string): (r: string)
    ensures |r| == |s|
    ensures forall i :: 0 <= i < |s| ==> r[i] == UpperChar(s[i])
  {
    seq(|s|, i requires 0 <= i < |s| => UpperChar(s[i]))
  }

  /** Two characters with the same upper-case form have the same lower-case form. */
  lemma SameUpperSameLowerChar(a: char, b: char)
    requires UpperChar(a) == UpperChar(b)
    ensures LowerChar(a) == LowerChar(b)
  {
  }

  /** Hence case-folding to upper case loses nothing that `toLowerCase` keeps. */
  lemma SameUpperSameLower(s: string, t: string)
    requires Upper(s) == Upper(t)
    ensures Lower(s) == Lower(t)
  {
    assert |s| == |t|;
    forall i | 0 <= i < |s| ensures Lower(s)[i] == Lower(t)[i] {
      assert Upper(s)[i] == Upper(t)[i];
      SameUpperSameLowerChar(s[i], t[i]);
    }
  }

  /** The first position at or after `i` that does not hold whitespace. */
  function SkipWhitespace(s: string, i: nat): (k: nat)
    requires i <= |s|
    ensures i <= k <= |s|
    ensures forall j :: i <= j < k ==> IsWhitespace(s[j])
    ensures k == |s| || !IsWhitespace(s[k])
    decreases |s| - i
  {
    if i < |s| && IsWhitespace(s[i]) then SkipWhitespace(s, i + 1) else i
  }

  /** The end of `s[lo..k]` once its trailing whitespace is dropped. */
  function BackOverWhitespace(s: string, lo: nat, k: nat): (h: nat)
    requires lo <= k <= |s|
    ensures lo <= h <= k
    ensures forall j :: h <= j < k ==> IsWhitespace(s[j])
    ensures h == lo || !IsWhitespace(s[h - 1])
    decreases k
  {
    if lo < k && IsWhitespace(s[k - 1]) then BackOverWhitespace(s, lo, k - 1) else k
  }

  /** The text left after leading whitespace is removed (`trimStart`). */
  function TrimStart(s: string): (r: string)
    ensures |r| <= |s| && r == s[|s| - |r|..]
    ensures forall i :: 0 <= i < |s| - |r| ==> IsWhitespace(s[i])
    ensures r == [] || !IsWhitespace(r[0])
  {
    s[SkipWhitespace(s, 0)..]
  }

  /** The text left after trailing whitespace is removed (`trimEnd`). */
  function TrimEnd(s: string): (r: string)
    ensures |r| <= |s| && r == s[..|r|]
    ensures forall i :: |r| <= i < |s| ==> IsWhitespace(s[i])
    ensures r == [] || !IsWhitespace(r[|r| - 1])
  {
    s[..BackOverWhitespace(s, 0, |s|)]
  }

  /** A text that neither starts nor ends with whitespace is its own trim. */
  lemma TrimOfUnpadded(s: string)
    requires s != [] && !IsWhitespace(s[0]) && !IsWhitespace(s[|s| - 1])
    ensures Trim(s) == s
  {
    assert SkipWhitespace(s, 0) == 0;
    assert BackOverWhitespace(s, 0, |s|) == |s|;
  }

  /** `s.trim()`: a contiguous slice of `s` that neither starts nor ends with
      whitespace, everything cut away on either side being whitespace. */
  function Trim(s: string): (r: string)
    ensures |TrimStart(s)| >= |r|
    ensures r == s[|s| - |TrimStart(s)|..|s| - |TrimStart(s)| + |r|]
    ensures forall i :: 0 <= i < |s| - |TrimStart(s)| ==> IsWhitespace(s[i])
    ensures forall i :: |s| - |TrimStart(s)| + |r| <= i < |s| ==> IsWhitespace(s[i])
    ensures r == [] || (!IsWhitespace(r[0]) && !IsWhitespace(r[|r| - 1]))
  {
    var lo := SkipWhitespace(s, 0);
    s[lo..BackOverWhitespace(s, lo, |s|)]
  }

  /** Index of the first occurrence of `c` in `s`, if any. */
  function IndexOf(s: string, c: char): (r: Option<nat>)
    ensures r.Some? ==> r.value < |s| && s[r.value] == c
    ensures r.Some? ==> forall i :: 0 <= i < r.value ==> s[i] != c
    ensures r.None? ==> forall i :: 0 <= i < |s| ==> s[i] != c
  {
    if s == [] then None
    else if s[0] == c then Some(0)
    else match IndexOf(s[1..], c)
      case None => None
      case Some(k) => Some(k + 1)
  }

  /** `s.split(sep)[0]`: the text before the first separator (all of `s` when there is none). */
  function FirstField(s: string, sep: char): (r: string)
    ensures |r| <= |s| && r == s[..|r|]
    ensures forall i :: 0 <= i < |r| ==> r[i] != sep
    ensures |r| == |s| || s[|r|] == sep
  {
    match IndexOf(s, sep)
    case None => s
    case Some(k) => s[..k]
  }

  /** `s.split(sep)[1]`: the text between the first and the second separator,
      or `None` (JavaScript's `undefined`) when `s` holds no separator. */
  function SecondField(s: string, sep: char): (r: Option<string>)
    ensures r.None? <==> sep !in s
    ensures r.Some? ==> |FirstField(s, sep)| < |s|
                        && r.value == FirstField(s[|FirstField(s, sep)| + 1..], sep)
  {
    match IndexOf(s, sep)
    case None => None
    case Some(k) => Some(FirstField(s[k + 1..], sep))
  }

  /** `s.includes(sub)`: `sub` occurs in `s` at some position. */
  predicate Contains(s: string, sub: string)
    decreases |s|
  {
    |sub| <= |s| && (s[..|sub|] == sub || Contains(s[1..], sub))
  }

  /** A text contains its own prefix. */
  lemma ContainsPrefix(p: string, rest: string)
    ensures Contains(p + rest, p)
  {
    assert (p + rest)[..|p|] == p;
  }

  /** A text cannot contain a pattern one of whose characters it lacks. */
  lemma {:induction false} NotContainsWithoutChar(s: string, sub: string, k: nat)
    requires k < |sub| && sub[k] !in s
    ensures !Contains(s, sub)
    decreases |s|
  {
    if |sub| <= |s| {
      assert s[..|sub|][k] == s[k];
      NotContainsWithoutChar(s[1..], sub, k);
    }
  }

  /** `s.replace(/\s+/g, r)`: every maximal run of whitespace becomes `r`. */
  function ReplaceWhitespaceRuns(s: string, r: string): (t: string)
    requires NoWhitespace(r)
    ensures NoWhitespace(t)
    ensures NoWhitespace(s) ==> t == s
    decreases |s|
  {
    if s == [] then []
    else if IsWhitespace(s[0]) then r + ReplaceWhitespaceRuns(TrimStart(s), r)
    else [s[0]] + ReplaceWhitespaceRuns(s[1..], r)
  }

  /** A run of whitespace followed by a text that does not start with
      whitespace trims to that text. */
  lemma {:induction false} TrimStartOf(gap: string, rest: string)
    requires forall i :: 0 <= i < |gap| ==> IsWhitespace(gap[i])
    requires rest == [] || !IsWhitespace(rest[0])
    ensures TrimStart(gap + rest) == rest
    decreases |gap|
  {
    if gap != [] {
      assert (gap + rest)[1..] == gap[1..] + rest;
      TrimStartOf(gap[1..], rest);
    } else {
      assert gap + rest == rest;
    }
  }

  lemma {:induction false} SkipWhitespaceOfExtension(a: string, c: string, i: nat)
    requires i <= |a| && SkipWhitespace(a, i) < |a|
    ensures SkipWhitespace(a + c, i) == SkipWhitespace(a, i)
    decreases |a| - i
  {
    assert (a + c)[i] == a[i];
    if IsWhitespace(a[i]) {
      SkipWhitespaceOfExtension(a, c, i + 1);
    }
  }

  /** Text appended after a non-whitespace character is kept by `trimStart`. */
  lemma TrimStartKeepsTail(a: string, c: string)
    requires a != [] && !IsWhitespace(a[|a| - 1])
    ensures TrimStart(a + c) == TrimStart(a) + c
  {
    var k := SkipWhitespace(a, 0);
    assert k < |a|;
    SkipWhitespaceOfExtension(a, c, 0);
    assert (a + c)[k..] == a[k..] + c;
  }

  lemma ConcatAssoc(x: string, y: string, z: string)
    ensures x + (y + z) == x + y + z
  {
  }

  lemma HeadOfConcat(a: string, c: string)
    requires a != []
    ensures (a + c)[0] == a[0] && (a + c)[1..] == a[1..] + c
  {
  }

  /** A text that does not end in whitespace is replaced independently of
      whatever follows it. */
  lemma {:induction false} ReplaceAfterUnpadded(a: string, c: string, r: string)
    requires NoWhitespace(r)
    requires a == [] || !IsWhitespace(a[|a| - 1])
    ensures ReplaceWhitespaceRuns(a + c, r) == ReplaceWhitespaceRuns(a, r) + ReplaceWhitespaceRuns(c, r)
    decreases |a|
  {
    if a == [] {
      assert a + c == c;
    } else if IsWhitespace(a[0]) {
      var a' := TrimStart(a);
      assert a' != [] && |a'| < |a| && a'[|a'| - 1] == a[|a| - 1];
      ReplaceAfterUnpadded(a', c, r);
      ReplaceAfterSpaceHead(a, c, r);
    } else {
      assert |a| > 1 ==> a[1..][|a| - 2] == a[|a| - 1];
      ReplaceAfterUnpadded(a[1..], c, r);
      ReplaceAfterLetterHead(a, c, r);
    }
  }

  lemma ReplaceAfterSpaceHead(a: string, c: string, r: string)
    requires NoWhitespace(r)
    requires a != [] && IsWhitespace(a[0]) && !IsWhitespace(a[|a| - 1])
    requires ReplaceWhitespaceRuns(TrimStart(a) + c, r)
             == ReplaceWhitespaceRuns(TrimStart(a), r) + ReplaceWhitespaceRuns(c, r)
    ensures ReplaceWhitespaceRuns(a + c, r) == ReplaceWhitespaceRuns(a, r) + ReplaceWhitespaceRuns(c, r)
  {
    var s := a + c;
    assert s[0] == a[0];
    TrimStartKeepsTail(a, c);
    ConcatAssoc(r, ReplaceWhitespaceRuns(TrimStart(a), r), ReplaceWhitespaceRuns(c, r));
  }

  lemma ReplaceAfterLetterHead(a: string, c: string, r: string)
    requires NoWhitespace(r)
    requires a != [] && !IsWhitespace(a[0])
    requires ReplaceWhitespaceRuns(a[1..] + c, r)
             == ReplaceWhitespaceRuns(a[1..], r) + ReplaceWhitespaceRuns(c, r)
    ensures ReplaceWhitespaceRuns(a + c, r) == ReplaceWhitespaceRuns(a, r) + ReplaceWhitespaceRuns(c, r)
  {
    HeadOfConcat(a, c);
    ConcatAssoc([a[0]], ReplaceWhitespaceRuns(a[1..], r), ReplaceWhitespaceRuns(c, r));
  }

  /** A whitespace run followed by a text that does not start with whitespace
      becomes one `r`. */
  lemma ReplaceLeadingRun(w: string, b: string, r: string)
    requires NoWhitespace(r)
    requires w != [] && forall i :: 0 <= i < |w| ==> IsWhitespace(w[i])
    requires b == [] || !IsWhitespace(b[0])
    ensures ReplaceWhitespaceRuns(w + b, r) == r + ReplaceWhitespaceRuns(b, r)
  {
    var s := w + b;
    assert s[0] == w[0];
    TrimStartOf(w, b);
  }

  /** Each maximal whitespace run becomes one `r`: the text before the run and
      the text after it are replaced independently. With `a` empty this is a
      leading run, with `b` empty a trailing one. */
  lemma ReplaceWhitespaceRun(a: string, w: string, b: string, r: string)
    requires NoWhitespace(r)
    requires a == [] || !IsWhitespace(a[|a| - 1])
    requires w != [] && forall i :: 0 <= i < |w| ==> IsWhitespace(w[i])
    requires b == [] || !IsWhitespace(b[0])
    ensures ReplaceWhitespaceRuns(a + w + b, r)
            == ReplaceWhitespaceRuns(a, r) + r + ReplaceWhitespaceRuns(b, r)
  {
    ConcatAssoc(a, w, b);
    ReplaceAfterUnpadded(a, w + b, r);
    ReplaceLeadingRun(w, b, r);
    ConcatAssoc(ReplaceWhitespaceRuns(a, r), r, ReplaceWhitespaceRuns(b, r));
  }

  function DigitValue(c: char): (d: nat)
    requires IsDigit(c)
    ensures d < 10
  {
    c as int - '0' as int
  }

  /** The value of a run of decimal digits, most significant first. */
  function DigitsValue(s: string): (v: nat)
    requires forall i :: 0 <= i < |s| ==> IsDigit(s[i])
  {
    if s == [] then 0 else 10 * DigitsValue(s[..|s| - 1]) + DigitValue(s[|s| - 1])
  }

  /** The longest prefix of `s` made of decimal digits. */
  function LeadingDigits(s: string): (r: string)
    ensures |r| <= |s| && r == s[..|r|]
    ensures forall i :: 0 <= i < |r| ==> IsDigit(r[i])
    ensures |r| == |s| || !IsDigit(s[|r|])
  {
    if s != [] && IsDigit(s[0]) then [s[0]] + LeadingDigits(s[1..]) else []
  }

  /** `parseInt(s)` for texts without a `0x` prefix: leading whitespace is
      skipped, one sign is read, then the longest run of decimal digits;
      `None` is `NaN` (no digit at all). */
  function ParseInt(s: string): (r: Option<int>)
    ensures r.Some? ==> exists k :: 0 <= k < |s| && IsDigit(s[k])
  {
    var t := TrimStart(s);
    var negative := t != [] && t[0] == '-';
    var body := if t != [] && (t[0] == '-' || t[0] == '+') then t[1..] else t;
    var digits := LeadingDigits(body);
    if digits == [] then None
    else
      assert t == s[|s| - |t|..];
      assert body == s[|s| - |body|..];
      assert body[0] == digits[0] == s[|s| - |body|];
      Some(if negative then -(DigitsValue(digits) as int) else DigitsValue(digits))
  }

  function DigitChar(d: nat): (c: char)
    requires d < 10
    ensures IsDigit(c) && DigitValue(c) == d
  {
    ('0' as int + d) as char
  }

  /** Decimal rendering of a natural number, without leading zeros. */
  function NatToString(n: nat): (s: string)
    ensures |s| > 0 && forall i :: 0 <= i < |s| ==> IsDigit(s[i])
    ensures |s| > 1 ==> s[0] != '0'
    decreases n
  {
    if n < 10 then [DigitChar(n)] else NatToString(n / 10) + [DigitChar(n % 10)]
  }

  /** Reading back the decimal rendering gives the number again. */
  lemma {:induction false} NatToStringRoundTrip(n: nat)
    ensures DigitsValue(NatToString(n)) == n
    decreases n
  {
    var s := NatToString(n);
    if n >= 10 {
      NatToStringRoundTrip(n / 10);
      assert s[..|s| - 1] == NatToString(n / 10);
    }
  }

  /** An integer as a template literal renders it. */
  function IntToString(i: int): string {
    if i < 0 then "-" + NatToString(-i) else NatToString(i)
  }
}
