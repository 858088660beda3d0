/**
 * The JavaScript string operations the screens rely on, stated over strings as
 * sequences of characters: `trim`, `toLowerCase`/`toUpperCase`, `includes`,
 * `split(sep).pop()`, `startsWith`, the decimal rendering of a template literal,
 * and the order `Array.prototype.sort` uses on strings.
 */
module Text {

  // ---------------------------------------------------------------------------
  // trim

  /** The ECMAScript WhiteSpace and LineTerminator code points: what `trim` strips. */
  predicate IsWhitespace(c: char) {
    c == '\t' || c == '\n' || c == '\U{B}' || c == '\U{C}' || c == '\r' || c == ' '
    || c == '\U{A0}' || c == '\U{1680}' || ('\U{2000}' <= c <= '\U{200A}')
    || c == '\U{2028}' || c == '\U{2029}' || c == '\U{202F}' || c == '\U{205F}'
    || c == '\U{3000}' || c == '\U{FEFF}'
  }

  predicate AllWhitespace(s: string) {
    forall i :: 0 <= i < |s| ==> IsWhitespace(s[i])
  }

  /** How many whitespace characters `s` starts with. */
  function LeadingBlanks(s: string): (n: nat)
    ensures n <= |s|
    ensures forall i :: 0 <= i < n ==> IsWhitespace(s[i])
    ensures n < |s| ==> !IsWhitespace(s[n])
  {
    if s != [] && IsWhitespace(s[0]) then 1 + LeadingBlanks(s[1..]) else 0
  }

  /** The length of `s` without its trailing whitespace. */
  function ContentEnd(s: string): (n: nat)
    ensures n <= |s|
    ensures forall i :: n <= i < |s| ==> IsWhitespace(s[i])
    ensures n > 0 ==> !IsWhitespace(s[n - 1])
  {
    if s != [] && IsWhitespace(s[|s| - 1]) then ContentEnd(s[..|s| - 1]) else |s|
  }

  /**
   * JavaScript `s.trim()`: the part of `s` left once the whitespace at both ends
   * is removed. It occurs in `s` with only whitespace before and after it, and it
   * neither starts nor ends with whitespace; `TrimIsUnique` shows that these facts
   * leave no other choice.
   */
  function Trim(s: string): (r: string)
    ensures |r| <= |s|
    ensures r != [] ==> !IsWhitespace(r[0]) && !IsWhitespace(r[|r| - 1])
    ensures exists k :: OccursAt(s, r, k) && AllWhitespace(s[..k]) && AllWhitespace(s[k + |r|..])
  {
    var k := LeadingBlanks(s);
    var n := ContentEnd(s[k..]);
    var r := s[k..k + n];
    assert OccursAt(s, r, k);
    assert AllWhitespace(s[..k]);
    var rest := s[k + n..];
    forall i | 0 <= i < |rest| ensures IsWhitespace(rest[i]) {
      assert rest[i] == s[k..][n + i];
    }
    r
  }

  /** A string that is whitespace up to `k` and from `k` on is whitespace throughout. */
  lemma AllWhitespaceJoin(s: string, k: int)
    requires 0 <= k <= |s| && AllWhitespace(s[..k]) && AllWhitespace(s[k..])
    ensures AllWhitespace(s)
  {
    forall i | 0 <= i < |s| ensures IsWhitespace(s[i]) {
      if i < k {
        assert s[..k][i] == s[i];
      } else {
        assert s[k..][i - k] == s[i];
      }
    }
  }

  /** Two characters that are not whitespace, each with only whitespace before it, are at the same index. */
  lemma FirstNonBlank(s: string, k: int, j: int)
    requires 0 <= k < |s| && 0 <= j < |s|
    requires AllWhitespace(s[..k]) && AllWhitespace(s[..j])
    requires !IsWhitespace(s[k]) && !IsWhitespace(s[j])
    ensures k == j
  {
  }

  /** Two characters that are not whitespace, each with only whitespace after it, are at the same index. */
  lemma LastNonBlank(s: string, e: int, f: int)
    requires 0 <= e < |s| && 0 <= f < |s|
    requires AllWhitespace(s[e + 1..]) && AllWhitespace(s[f + 1..])
    requires !IsWhitespace(s[e]) && !IsWhitespace(s[f])
    ensures e == f
  {
  }

  /** Two infixes of `s` with only whitespace around them and none at their ends are the same. */
  lemma TrimmedInfixesAgree(s: string, t: string, k: int, r: string, j: int)
    requires OccursAt(s, t, k) && AllWhitespace(s[..k]) && AllWhitespace(s[k + |t|..])
    requires t != [] ==> !IsWhitespace(t[0]) && !IsWhitespace(t[|t| - 1])
    requires OccursAt(s, r, j) && AllWhitespace(s[..j]) && AllWhitespace(s[j + |r|..])
    requires r != [] ==> !IsWhitespace(r[0]) && !IsWhitespace(r[|r| - 1])
    ensures t == r
  {
    if t == [] {
      AllWhitespaceJoin(s, k);
    } else if r == [] {
      AllWhitespaceJoin(s, j);
    } else {
      assert t[0] == s[k] && r[0] == s[j];
      FirstNonBlank(s, k, j);
      assert t[|t| - 1] == s[k + |t| - 1] && r[|r| - 1] == s[j + |r| - 1];
      LastNonBlank(s, k + |t| - 1, j + |r| - 1);
    }
  }

  /**
   * Any infix of `s` with only whitespace around it and none at its ends is the
   * trimmed string: the contract of `Trim` determines its result.
   */
  lemma TrimIsUnique(s: string, t: string, k: int)
    requires OccursAt(s, t, k) && AllWhitespace(s[..k]) && AllWhitespace(s[k + |t|..])
    requires t != [] ==> !IsWhitespace(t[0]) && !IsWhitespace(t[|t| - 1])
    ensures t == Trim(s)
  {
    var r := Trim(s);
    var j :| OccursAt(s, r, j) && AllWhitespace(s[..j]) && AllWhitespace(s[j + |r|..]);
    TrimmedInfixesAgree(s, t, k, r, j);
  }

  /** JavaScript `!s.trim()`: the string is empty once trimmed, that is, it is all whitespace. */
  predicate IsBlank(s: string)
    ensures IsBlank(s) <==> AllWhitespace(s)
  {
    TrimEmptyIffAllWhitespace(s);
    Trim(s) == []
  }

  lemma TrimEmptyIffAllWhitespace(s: string)
    ensures Trim(s) == [] <==> AllWhitespace(s)
  {
    var r := Trim(s);
    var j :| OccursAt(s, r, j) && AllWhitespace(s[..j]) && AllWhitespace(s[j + |r|..]);
    if r == [] {
      AllWhitespaceJoin(s, j);
    } else {
      assert r[0] == s[j];
    }
  }

  // ---------------------------------------------------------------------------
  // includes

  /** `needle` occurs in `hay` starting at index `i`. */
  predicate OccursAt(hay: string, needle: string, i: int) {
    0 <= i <= |hay| - |needle| && hay[i..i + |needle|] == needle
  }

  /** `needle` occurs somewhere in `hay`. */
  ghost predicate IsInfix(needle: string, hay: string) {
    exists i :: OccursAt(hay, needle, i)
  }

  /** JavaScript `hay.includes(needle)`: a left-to-right scan for an occurrence. */
  predicate Includes(hay: string, needle: string)
    ensures Includes(hay, needle) <==> IsInfix(needle, hay)
  {
    if |needle| > |hay| then
      false
    else if hay[..|needle|] == needle then
      assert OccursAt(hay, needle, 0);
      true
    else
      var rest := Includes(hay[1..], needle);
      IncludesStep(hay, needle);
      rest
  }

  /** An occurrence in `hay` not at 0 is an occurrence in `hay[1..]`, and conversely. */
  lemma IncludesStep(hay: string, needle: string)
    requires |needle| <= |hay| && hay[..|needle|] != needle
    ensures IsInfix(needle, hay) <==> IsInfix(needle, hay[1..])
  {
    if i :| OccursAt(hay, needle, i) {
      assert i != 0;
      assert OccursAt(hay[1..], needle, i - 1) by {
        assert hay[1..][i - 1..i - 1 + |needle|] == hay[i..i + |needle|];
      }
    }
    if i :| OccursAt(hay[1..], needle, i) {
      assert OccursAt(hay, needle, i + 1) by {
        assert hay[1..][i..i + |needle|] == hay[i + 1..i + 1 + |needle|];
      }
    }
  }

  /** The empty string occurs in every string. */
  lemma IncludesEmpty(hay: string)
    ensures Includes(hay, "")
  {
    assert OccursAt(hay, "", 0);
  }

  // ---------------------------------------------------------------------------
  // toLowerCase / toUpperCase

  /** Basic Latin and basic Cyrillic (U+0400..U+045F) letters are mapped; every other character is kept. */
  function LowerChar(c: char): (r: char)
    ensures !IsUpperLetter(r)
  {
    if 'A' <= c <= 'Z' || '\U{410}' <= c <= '\U{42F}' then (c as int + 32) as char
    else if '\U{400}' <= c <= '\U{40F}' then (c as int + 80) as char
    else c
  }

  predicate IsUpperLetter(c: char) {
    'A' <= c <= 'Z' || '\U{400}' <= c <= '\U{42F}'
  }

  predicate IsLowerLetter(c: char) {
    'a' <= c <= 'z' || '\U{430}' <= c <= '\U{45F}'
  }

  function UpperChar(c: char): (r: char)
    ensures !IsLowerLetter(r)
  {
    if 'a' <= c <= 'z' || '\U{430}' <= c <= '\U{44F}' then (c as int - 32) as char
    else if '\U{450}' <= c <= '\U{45F}' then (c as int - 80) as char
    else c
  }

  /** JavaScript `s.toLowerCase()`, restricted to the letters of `LowerChar`. */
  function ToLower(s: string): (r: string)
    ensures |r| == |s|
    ensures forall i :: 0 <= i < |s| ==> r[i] == LowerChar(s[i])
  {
    seq(|s|, i requires 0 <= i < |s| => LowerChar(s[i]))
  }

  /** JavaScript `s.toUpperCase()`, restricted to the letters of `UpperChar`. */
  function ToUpper(s: string): (r: string)
    ensures |r| == |s|
    ensures forall i :: 0 <= i < |s| ==> r[i] == UpperChar(s[i])
  {
    seq(|s|, i requires 0 <= i < |s| => UpperChar(s[i]))
  }

  /** Lower-casing twice is lower-casing once. */
  lemma ToLowerIdempotent(s: string)
    ensures ToLower(ToLower(s)) == ToLower(s)
  {
  }

  /**
   * `name.toLowerCase().includes(query.toLowerCase())`: the case-insensitive search
   * all list screens use. The lower-cased query occurs in the lower-cased name.
   */
  predicate MatchesQuery(name: string, query: string)
    ensures MatchesQuery(name, query) <==> IsInfix(ToLower(query), ToLower(name))
  {
    Includes(ToLower(name), ToLower(query))
  }

  /** An empty query matches every name. */
  lemma EmptyQueryMatches(name: string)
    ensures MatchesQuery(name, "")
  {
    IncludesEmpty(ToLower(name));
  }

  /** The search ignores the case of the query: lower-casing it first changes nothing. */
  lemma MatchesQueryIgnoresQueryCase(name: string, query: string)
    ensures MatchesQuery(name, ToLower(query)) == MatchesQuery(name, query)
  {
    ToLowerIdempotent(query);
  }

  // ---------------------------------------------------------------------------
  // split(sep).pop() and startsWith

  /** JavaScript `s.split(sep).pop()`: the text after the last `sep`, or all of `s` when it has none. */
  function AfterLast(s: string, sep: char): (r: string)
    ensures |r| <= |s| && r == s[|s| - |r|..]
    ensures sep !in r
    ensures |r| < |s| ==> s[|s| - |r| - 1] == sep
  {
    if s == [] || s[|s| - 1] == sep then
      []
    else
      var r := AfterLast(s[..|s| - 1], sep);
      assert s[..|s| - 1][|s| - 1 - |r|..] + [s[|s| - 1]] == s[|s| - 1 - |r|..];
      r + [s[|s| - 1]]
  }

  /** The last segment of `head + sep + tail` is `tail` when `tail` has no separator. */
  lemma {:induction false} AfterLastOfSplit(head: string, sep: char, tail: string)
    requires sep !in tail
    ensures AfterLast(head + [sep] + tail, sep) == tail
  {
    var s := head + [sep] + tail;
    if tail != [] {
      var init := tail[..|tail| - 1];
      assert s[..|s| - 1] == head + [sep] + init;
      AfterLastOfSplit(head, sep, init);
      assert tail == init + [tail[|tail| - 1]];
    }
  }

  /** A string without the separator is its own last segment. */
  lemma {:induction false} AfterLastNoSeparator(s: string, sep: char)
    requires sep !in s
    ensures AfterLast(s, sep) == s
  {
    if s != [] {
      AfterLastNoSeparator(s[..|s| - 1], sep);
      assert s == s[..|s| - 1] + [s[|s| - 1]];
    }
  }

  /** JavaScript `s.startsWith(prefix)`: the first characters of `s` are those of `prefix`, one by one. */
  predicate StartsWith(s: string, prefix: string)
    ensures StartsWith(s, prefix) <==> |prefix| <= |s| && forall i :: 0 <= i < |prefix| ==> s[i] == prefix[i]
  {
    |prefix| <= |s| && s[..|prefix|] == prefix
  }

  // ---------------------------------------------------------------------------
  // Decimal rendering of a non-negative integer, as in `${n}`

  function DigitChar(d: nat): (c: char)
    requires d < 10
    ensures '0' <= c <= '9'
  {
    ('0' as int + d) as char
  }

  predicate AllDigits(s: string) {
    forall i :: 0 <= i < |s| ==> '0' <= s[i] <= '9'
  }

  /** The number a string of decimal digits denotes, most significant digit first. */
  function DigitsValue(s: string): nat
    requires AllDigits(s)
  {
    if s == [] then 0 else DigitsValue(s[..|s| - 1]) * 10 + (s[|s| - 1] as int - '0' as int)
  }

  /**
   * The decimal digits of `n`, most significant first, as `${n}` renders them:
   * digits only, no leading zero, and reading them back gives `n`.
   */
  function Decimal(n: nat): (r: string)
    ensures 1 <= |r|
    ensures n >= 10 ==> |r| >= 2
    ensures AllDigits(r)
    ensures r[0] == '0' ==> r == "0"
    ensures DigitsValue(r) == n
  {
    if n < 10 then [DigitChar(n)]
    else
      var r := Decimal(n / 10) + [DigitChar(n % 10)];
      assert r[..|r| - 1] == Decimal(n / 10);
      r
  }

  /** Different numbers have different decimal renderings. */
  lemma {:induction false} DecimalInjective(a: nat, b: nat)
    requires Decimal(a) == Decimal(b)
    ensures a == b
  {
    var da, db := Decimal(a), Decimal(b);
    if a >= 10 && b >= 10 {
      assert da[..|da| - 1] == Decimal(a / 10) && db[..|db| - 1] == Decimal(b / 10);
      assert da[|da| - 1] == DigitChar(a % 10) && db[|db| - 1] == DigitChar(b % 10);
      DecimalInjective(a / 10, b / 10);
    }
  }

  // ---------------------------------------------------------------------------
  // The string order of Array.prototype.sort

  /** `a` and `b` agree before index `k`, and there `a` has the smaller character. */
  ghost predicate SmallerAt(a: string, b: string, k: int) {
    0 <= k < |a| && k < |b| && a[..k] == b[..k] && a[k] < b[k]
  }

  /**
   * `a` sorts no later than `b`, comparing character by character: `a` is a
   * prefix of `b`, or at the first index where they differ `a` is smaller.
   */
  predicate LexLe(a: string, b: string)
    ensures LexLe(a, b) <==> StartsWith(b, a) || exists k :: SmallerAt(a, b, k)
  {
    if a == [] then
      assert StartsWith(b, a);
      true
    else if b == [] then
      false
    else if a[0] != b[0] then
      assert a[0] < b[0] ==> SmallerAt(a, b, 0);
      assert forall k :: SmallerAt(a, b, k) ==> k == 0;
      a[0] < b[0]
    else
      LexStep(a, b);
      LexLe(a[1..], b[1..])
  }

  /** Past a common first character, the order is that of the rests. */
  lemma LexStep(a: string, b: string)
    requires a != [] && b != [] && a[0] == b[0]
    ensures (StartsWith(b, a) || exists k :: SmallerAt(a, b, k))
            <==> (StartsWith(b[1..], a[1..]) || exists k :: SmallerAt(a[1..], b[1..], k))
  {
    if k :| SmallerAt(a, b, k) {
      assert k != 0;
      assert a[1..][..k - 1] == a[..k][1..] && b[1..][..k - 1] == b[..k][1..];
      assert SmallerAt(a[1..], b[1..], k - 1);
    }
    if k :| SmallerAt(a[1..], b[1..], k) {
      assert a[..k + 1] == [a[0]] + a[1..][..k] && b[..k + 1] == [b[0]] + b[1..][..k];
      assert SmallerAt(a, b, k + 1);
    }
    assert StartsWith(b, a) <==> StartsWith(b[1..], a[1..]);
  }

  /** Any two strings are ordered one way or the other. */
  lemma {:induction false} LexTotal(a: string, b: string)
    ensures LexLe(a, b) || LexLe(b, a)
  {
    if a != [] && b != [] && a[0] == b[0] {
      LexTotal(a[1..], b[1..]);
    }
  }

  /** Two strings ordered both ways are equal. */
  lemma {:induction false} LexAntisymmetric(a: string, b: string)
    requires LexLe(a, b) && LexLe(b, a)
    ensures a == b
  {
    if a != [] && b != [] {
      LexAntisymmetric(a[1..], b[1..]);
      assert a == [a[0]] + a[1..];
      assert b == [b[0]] + b[1..];
    }
  }
}
