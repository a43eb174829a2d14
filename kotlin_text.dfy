/**
 * The pieces of Kotlin's String library the core relies on: `trim`, splitting on
 * whitespace and on a delimiter, `contains(ignoreCase = true)`, decimal rendering
 * of an integer, and the byte-wise string order SQLite uses for `ORDER BY`.
 */
module KotlinText {

  /** The characters of the regular-expression class `\s` (space, tab, newline, vertical tab, form feed, carriage return). */
  predicate IsWhitespace(c: char) {
    c == ' ' || c == '\t' || c == '\n' || c == '\U{000B}' || c == '\U{000C}' || c == '\r'
  }

  /**
   * Kotlin's `Char.isWhitespace()`, which `String.trim()` strips: the `\s` characters, the
   * separators U+001C to U+001F, and the Unicode space, line and paragraph separators.
   */
  predicate IsKotlinWhitespace(c: char) {
    IsWhitespace(c) || '\U{001C}' <= c <= '\U{001F}' || c == '\U{00A0}' || c == '\U{1680}'
    || '\U{2000}' <= c <= '\U{200A}' || c == '\U{2028}' || c == '\U{2029}' || c == '\U{202F}'
    || c == '\U{205F}' || c == '\U{3000}'
  }

  /** Every character `trim()` would strip from `s` is one the `\s+` split also treats as a separator. */
  predicate OnlyRegexSpaces(s: string) {
    forall i :: 0 <= i < |s| && IsKotlinWhitespace(s[i]) ==> IsWhitespace(s[i])
  }

  predicate NoWhitespace(s: string) {
    forall i :: 0 <= i < |s| ==> !IsWhitespace(s[i])
  }

  /** Drops leading whitespace. */
  function TrimStart(s: string): (r: string)
    ensures |r| <= |s| && r == s[|s| - |r|..]
    ensures forall i :: 0 <= i < |s| - |r| ==> IsKotlinWhitespace(s[i])
    ensures r == [] || !IsKotlinWhitespace(r[0])
  {
    if s != [] && IsKotlinWhitespace(s[0]) then TrimStart(s[1..]) else s
  }

  /** Drops trailing whitespace. */
  function TrimEnd(s: string): (r: string)
    ensures |r| <= |s| && r == s[..|r|]
    ensures forall i :: |r| <= i < |s| ==> IsKotlinWhitespace(s[i])
    ensures r == [] || !IsKotlinWhitespace(r[|r| - 1])
  {
    if s != [] && IsKotlinWhitespace(s[|s| - 1]) then TrimEnd(s[..|s| - 1]) else s
  }

  /** Kotlin's `String.trim()`. */
  function Trim(s: string): string {
    TrimEnd(TrimStart(s))
  }

  /** Length of the run of non-whitespace characters that starts `s`. */
  function WordLength(s: string): (n: nat)
    ensures n <= |s|
    ensures forall i :: 0 <= i < n ==> !IsWhitespace(s[i])
    ensures n == |s| || IsWhitespace(s[n])
  {
    if s == [] || IsWhitespace(s[0]) then 0 else 1 + WordLength(s[1..])
  }

  /**
   * `split(Regex("\\s+")).filter { it.isNotBlank() }`: the maximal runs of characters outside
   * `\s`, in order. A run made only of Unicode spaces, which the filter drops, is kept here;
   * the tuple reader skips it anyway (`KmlParser.BlankTokenSkipped`).
   */
  function Tokens(s: string): (ts: seq<string>)
    ensures forall t :: t in ts ==> t != [] && NoWhitespace(t)
    decreases |s|
  {
    if s == [] then []
    else if IsWhitespace(s[0]) then Tokens(s[1..])
    else
      var n := WordLength(s);
      [s[..n]] + Tokens(s[n..])
  }

  /** The tokens joined by single spaces: the text a well-formed token list is written as. */
  function JoinSpaced(ts: seq<string>): string {
    if ts == [] then []
    else if |ts| == 1 then ts[0]
    else ts[0] + " " + JoinSpaced(ts[1..])
  }

  lemma WordLengthOfWord(t: string, rest: string)
    requires t != [] && NoWhitespace(t)
    requires rest == [] || IsWhitespace(rest[0])
    ensures WordLength(t + rest) == |t|
  {
    if |t| > 1 {
      assert (t + rest)[1..] == t[1..] + rest;
      WordLengthOfWord(t[1..], rest);
    } else {
      assert (t + rest)[1..] == rest;
    }
  }

  /** Splitting the space-joined tokens gives the tokens back. */
  lemma {:induction false} TokensOfJoined(ts: seq<string>)
    requires forall t :: t in ts ==> t != [] && NoWhitespace(t)
    ensures Tokens(JoinSpaced(ts)) == ts
  {
    if ts == [] {
    } else if |ts| == 1 {
      var t := ts[0];
      assert t in ts;
      WordLengthOfWord(t, []);
      assert t + [] == t;
      assert t[|t|..] == [];
    } else {
      var t, rest := ts[0], JoinSpaced(ts[1..]);
      assert t in ts;
      var s := t + " " + rest;
      WordLengthOfWord(t, " " + rest);
      assert s == t + (" " + rest);
      assert s[..|t|] == t;
      assert s[|t|..] == " " + rest;
      assert (" " + rest)[1..] == rest;
      assert forall u :: u in ts[1..] ==> u in ts;
      TokensOfJoined(ts[1..]);
    }
  }

  lemma {:induction false} TokensOfTrimStart(s: string)
    ensures OnlyRegexSpaces(s) ==> Tokens(TrimStart(s)) == Tokens(s)
    decreases |s|
  {
    if s != [] && IsKotlinWhitespace(s[0]) {
      TokensOfTrimStart(s[1..]);
    }
  }

  /** Whitespace at the end adds no token. */
  lemma {:induction false} TokensAppendWhitespace(s: string, c: char)
    requires IsWhitespace(c)
    ensures Tokens(s + [c]) == Tokens(s)
    decreases |s|
  {
    var sc := s + [c];
    if s == [] {
      assert Tokens(sc) == Tokens(sc[1..]);
      assert sc[1..] == [];
    } else if IsWhitespace(s[0]) {
      assert sc[1..] == s[1..] + [c];
      TokensAppendWhitespace(s[1..], c);
    } else {
      var n := WordLength(s);
      WordLengthOfWord(s[..n], s[n..] + [c]);
      assert s[..n] + (s[n..] + [c]) == sc;
      assert sc[..n] == s[..n];
      assert sc[n..] == s[n..] + [c];
      TokensAppendWhitespace(s[n..], c);
    }
  }

  lemma {:induction false} TokensOfTrimEnd(s: string)
    ensures OnlyRegexSpaces(s) ==> Tokens(TrimEnd(s)) == Tokens(s)
    decreases |s|
  {
    if s != [] && IsKotlinWhitespace(s[|s| - 1]) && OnlyRegexSpaces(s) {
      var init := s[..|s| - 1];
      assert s == init + [s[|s| - 1]];
      assert IsWhitespace(s[|s| - 1]);
      TokensAppendWhitespace(init, s[|s| - 1]);
      TokensOfTrimEnd(init);
    }
  }

  /**
   * Trimming first changes nothing about the tokens (`trim()` before `split`) as long as
   * every character `trim()` strips is also a `\s` separator.
   */
  lemma TokensOfTrim(s: string)
    ensures OnlyRegexSpaces(s) ==> Tokens(Trim(s)) == Tokens(s)
  {
    TokensOfTrimEnd(TrimStart(s));
    TokensOfTrimStart(s);
  }

  /**
   * A Unicode space in front of a word is stripped by `trim()` but is not a `\s` separator:
   * without the `trim()` it would stay inside the first token.
   */
  lemma TrimStripsUnicodeSpace(c: char, t: string)
    requires IsKotlinWhitespace(c) && !IsWhitespace(c)
    requires t != [] && forall i :: 0 <= i < |t| ==> !IsKotlinWhitespace(t[i])
    ensures Tokens(Trim([c] + t)) == [t]
    ensures Tokens([c] + t) == [[c] + t]
  {
    var ct := [c] + t;
    assert ct[1..] == t;
    assert TrimStart(ct) == t;
    assert TrimEnd(t) == t;
    WordTokens(t);
    assert NoWhitespace(ct) by {
      forall i | 0 < i < |ct|
        ensures !IsWhitespace(ct[i])
      {
        assert ct[i] == t[i - 1];
      }
    }
    WordTokens(ct);
  }

  /** A non-empty run of characters outside `\s` is one token. */
  lemma WordTokens(t: string)
    requires t != [] && NoWhitespace(t)
    ensures Tokens(t) == [t]
  {
    WordLengthOfWord(t, []);
    assert t + [] == t;
    assert t[|t|..] == [];
  }

  /** Kotlin's `s.split(d)` for a one-character delimiter: every part, empty ones included. */
  function Split(s: string, d: char): (parts: seq<string>)
    ensures |parts| >= 1
    ensures forall p :: p in parts ==> d !in p
  {
    if s == [] then [[]]
    else if s[0] == d then [[]] + Split(s[1..], d)
    else
      var rest := Split(s[1..], d);
      assert forall p :: p in rest[1..] ==> p in rest;
      [[s[0]] + rest[0]] + rest[1..]
  }

  /** `parts.joinToString(d)`. */
  function Join(parts: seq<string>, d: char): string
    requires |parts| >= 1
  {
    if |parts| == 1 then parts[0] else parts[0] + [d] + Join(parts[1..], d)
  }

  /** Joining the parts with the delimiter gives the original string back. */
  lemma {:induction false} JoinSplit(s: string, d: char)
    ensures Join(Split(s, d), d) == s
  {
    if s == [] {
    } else if s[0] == d {
      JoinSplit(s[1..], d);
    } else {
      var rest := Split(s[1..], d);
      JoinSplit(s[1..], d);
      if |rest| == 1 {
      } else {
        assert rest == [rest[0]] + rest[1..];
        assert Join(rest, d) == rest[0] + [d] + Join(rest[1..], d);
      }
    }
  }

  /** A string splits into two or more parts exactly when it holds the delimiter. */
  lemma SplitHasSeveralParts(s: string, d: char)
    ensures |Split(s, d)| >= 2 <==> d in s
  {
    var parts := Split(s, d);
    JoinSplit(s, d);
    if |parts| >= 2 {
      assert Join(parts, d) == parts[0] + [d] + Join(parts[1..], d);
      assert s[|parts[0]|] == d;
    } else {
      assert parts[0] in parts;
    }
  }

  /** Upper-case mapping of the ASCII letters; other characters map to themselves. */
  function UpperAscii(c: char): char {
    if 'a' <= c <= 'z' then (c as int - 32) as char else c
  }

  /** Kotlin's `Char.equals(other, ignoreCase = true)`, for ASCII case only. */
  predicate CharEqualsIgnoreCase(a: char, b: char) {
    UpperAscii(a) == UpperAscii(b)
  }

  predicate MatchesAt(s: string, pat: string, i: nat)
    requires i + |pat| <= |s|
  {
    forall j :: 0 <= j < |pat| ==> CharEqualsIgnoreCase(s[i + j], pat[j])
  }

  predicate StartsWithIgnoreCase(s: string, pat: string) {
    |pat| <= |s| && MatchesAt(s, pat, 0)
  }

  /** Kotlin's `s.contains(pat, ignoreCase = true)`. */
  predicate ContainsIgnoreCase(s: string, pat: string)
    decreases |s|
  {
    StartsWithIgnoreCase(s, pat) || (s != [] && ContainsIgnoreCase(s[1..], pat))
  }

  /** `ContainsIgnoreCase` holds exactly when the pattern matches at some offset. */
  lemma {:induction false} ContainsIgnoreCaseIff(s: string, pat: string)
    ensures ContainsIgnoreCase(s, pat) <==> exists i :: 0 <= i && i + |pat| <= |s| && MatchesAt(s, pat, i)
    decreases |s|
  {
    if s == [] {
      if ContainsIgnoreCase(s, pat) { assert MatchesAt(s, pat, 0); }
    } else {
      ContainsIgnoreCaseIff(s[1..], pat);
      if ContainsIgnoreCase(s, pat) {
        if StartsWithIgnoreCase(s, pat) {
          assert MatchesAt(s, pat, 0);
        } else {
          var i :| 0 <= i && i + |pat| <= |s[1..]| && MatchesAt(s[1..], pat, i);
          assert MatchesAt(s, pat, i + 1);
        }
      } else {
        forall i | 0 <= i && i + |pat| <= |s|
          ensures !MatchesAt(s, pat, i)
        {
          if i > 0 && MatchesAt(s, pat, i) {
            assert MatchesAt(s[1..], pat, i - 1);
          }
        }
      }
    }
  }

  /**
   * SQLite's `s LIKE p` with no ESCAPE clause: `%` matches any run of characters, `_` any
   * one character, and every other character matches itself up to ASCII case.
   */
  predicate Like(s: string, p: string)
    decreases |p|, |s|
  {
    if p == [] then s == []
    else if p[0] == '%' then Like(s, p[1..]) || (s != [] && Like(s[1..], p))
    else s != [] && (p[0] == '_' || CharEqualsIgnoreCase(s[0], p[0])) && Like(s[1..], p[1..])
  }

  /** The pattern `'%' || q || '%'`, built from the query with no escaping. */
  function ContainsPattern(q: string): string {
    "%" + q + "%"
  }

  predicate NoWildcards(q: string) {
    '%' !in q && '_' !in q
  }

  lemma {:induction false} LikeAnything(s: string)
    ensures Like(s, "%")
    decreases |s|
  {
    assert "%"[1..] == [];
    if s != [] {
      LikeAnything(s[1..]);
    }
  }

  /** `q%` matches every text starting with `q`, and, when `q` holds no wildcard, no other. */
  lemma {:induction false} LikePrefix(s: string, q: string)
    ensures StartsWithIgnoreCase(s, q) ==> Like(s, q + "%")
    ensures NoWildcards(q) && Like(s, q + "%") ==> StartsWithIgnoreCase(s, q)
    decreases |q|
  {
    var p := q + "%";
    if q == [] {
      assert p == "%";
      LikeAnything(s);
    } else {
      assert p[0] == q[0] && p[1..] == q[1..] + "%";
      assert q == [q[0]] + q[1..];
      if s != [] {
        LikePrefix(s[1..], q[1..]);
        assert StartsWithIgnoreCase(s, q) <==>
          CharEqualsIgnoreCase(s[0], q[0]) && StartsWithIgnoreCase(s[1..], q[1..])
        by {
          if |q| <= |s| && CharEqualsIgnoreCase(s[0], q[0]) && MatchesAt(s[1..], q[1..], 0) {
            forall j | 0 < j < |q|
              ensures CharEqualsIgnoreCase(s[j], q[j])
            {
              assert s[1..][j - 1] == s[j] && q[1..][j - 1] == q[j];
            }
          }
        }
        if q[0] == '%' && StartsWithIgnoreCase(s, q) {
          assert s[0] == '%';
          assert Like(s[1..], p[1..]);
          assert Like(s, p[1..]) || Like(s[1..], p);
        }
      }
    }
  }

  /**
   * `LIKE '%' || q || '%'` finds every text that contains `q` up to ASCII case; when `q` holds
   * no `%` or `_` it finds exactly those.
   */
  lemma {:induction false} LikeContains(s: string, q: string)
    ensures ContainsIgnoreCase(s, q) ==> Like(s, ContainsPattern(q))
    ensures NoWildcards(q) ==> (Like(s, ContainsPattern(q)) <==> ContainsIgnoreCase(s, q))
    decreases |s|
  {
    var p := ContainsPattern(q);
    assert p[0] == '%' && p[1..] == q + "%";
    LikePrefix(s, q);
    if s != [] {
      LikeContains(s[1..], q);
    }
  }

  /** A query of `_` finds every non-empty text, and a query of `%` every text. */
  lemma LikeWildcardQueries(s: string)
    ensures Like(s, ContainsPattern("_")) <==> s != []
    ensures Like(s, ContainsPattern("%"))
  {
    assert ContainsPattern("_") == "%_%" && "%_%"[1..] == "_%" && "_%"[1..] == "%";
    assert ContainsPattern("%") == "%%%" && "%%%"[1..] == "%%" && "%%"[1..] == "%";
    LikeAnything(s);
    if s != [] {
      LikeAnything(s[1..]);
    }
  }

  /** Decimal rendering of a natural number (`"$n"`). */
  function DecimalString(n: nat): (r: string)
    ensures r != []
    ensures forall i :: 0 <= i < |r| ==> '0' <= r[i] <= '9'
  {
    var digit := ['0' + (n % 10) as char];
    if n < 10 then digit else DecimalString(n / 10) + digit
  }

  /** The number a string of decimal digits denotes (most significant digit first). */
  function DigitsValue(s: string): nat
    requires forall i :: 0 <= i < |s| ==> '0' <= s[i] <= '9'
  {
    if s == [] then 0 else DigitsValue(s[..|s| - 1]) * 10 + (s[|s| - 1] - '0') as nat
  }

  /** Reading back the decimal rendering of `n` gives `n`. */
  lemma {:induction false} DecimalStringValue(n: nat)
    ensures DigitsValue(DecimalString(n)) == n
    decreases n
  {
    var r := DecimalString(n);
    assert r[..|r| - 1] == if n < 10 then [] else DecimalString(n / 10);
    if n >= 10 {
      DecimalStringValue(n / 10);
    }
  }

  /** Kotlin's `"$n"` for an `Int`: the decimal digits of `|n|`, after a minus sign when `n` is negative. */
  function IntString(n: int): (r: string)
    ensures r != [] && (r[0] == '-' <==> n < 0)
    ensures n < 0 ==> r[1..] == DecimalString(-n)
    ensures n >= 0 ==> r == DecimalString(n)
  {
    if n < 0 then "-" + DecimalString(-n) else DecimalString(n)
  }

  /** SQLite's BINARY collation on strings: lexicographic on character codes, a prefix first. */
  predicate StrLe(a: string, b: string)
    decreases |a|
  {
    a == [] || (b != [] && (a[0] < b[0] || (a[0] == b[0] && StrLe(a[1..], b[1..]))))
  }

  lemma {:induction false} StrLeTotal(a: string, b: string)
    ensures StrLe(a, b) || StrLe(b, a)
    decreases |a|
  {
    if a != [] && b != [] && a[0] == b[0] {
      StrLeTotal(a[1..], b[1..]);
    }
  }

  lemma {:induction false} StrLeTransitive(a: string, b: string, c: string)
    requires StrLe(a, b) && StrLe(b, c)
    ensures StrLe(a, c)
    decreases |a|
  {
    if a != [] && b != [] && c != [] && a[0] == b[0] && b[0] == c[0] {
      StrLeTransitive(a[1..], b[1..], c[1..]);
    }
  }
}
