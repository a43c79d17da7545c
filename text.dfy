/**
 * The few JavaScript string and number built-ins the application relies on:
 * `trim`, `split` on one character, `toUpperCase`, `Number`/`isNaN`,
 * `parseInt` and decimal printing of a non-negative integer.
 */
module Text {
  import opened Wrappers

  // ---------------------------------------------------------------------------
  // trim
  // ---------------------------------------------------------------------------

  /** The ECMAScript WhiteSpace and LineTerminator code points: what `trim` removes. */
  predicate IsWhitespace(c: char) {
    || c == '\t' || c == '\U{000B}' || c == '\U{000C}' || c == ' ' || c == '\U{00A0}' || c == '\U{FEFF}'
    || c == '\n' || c == '\r' || c == '\U{2028}' || c == '\U{2029}'
    || c == '\U{1680}' || ('\U{2000}' <= c <= '\U{200A}') || c == '\U{202F}' || c == '\U{205F}' || c == '\U{3000}'
  }

  predicate AllWhitespace(s: string) {
    forall i :: 0 <= i < |s| ==> IsWhitespace(s[i])
  }

  /** `trimStart`: drops the leading whitespace and keeps the rest. */
  function TrimStart(s: string): (r: string)
    ensures |r| <= |s| && r == s[|s| - |r|..]
    ensures AllWhitespace(s[..|s| - |r|])
    ensures r == [] || !IsWhitespace(r[0])
  {
    if |s| > 0 && IsWhitespace(s[0]) then
      var r := TrimStart(s[1..]);
      var n := |s| - |r|;
      assert s[1..][n - 1..] == s[n..];
      assert AllWhitespace(s[..n]) by {
        forall i | 0 <= i < n
          ensures IsWhitespace(s[..n][i])
        {
          if i > 0 {
            assert s[..n][i] == s[1..][..n - 1][i - 1];
          }
        }
      }
      r
    else s
  }

  /** `trimEnd`: drops the trailing whitespace and keeps the rest. */
  function TrimEnd(s: string): (r: string)
    ensures |r| <= |s| && r == s[..|r|]
    ensures AllWhitespace(s[|r|..])
    ensures r == [] || !IsWhitespace(r[|r| - 1])
  {
    if |s| > 0 && IsWhitespace(s[|s| - 1]) then
      var r := TrimEnd(s[..|s| - 1]);
      assert s[..|s| - 1][..|r|] == s[..|r|];
      forall i | 0 <= i < |s| - |r|
        ensures IsWhitespace(s[|r|..][i])
      {
        if |r| + i < |s| - 1 {
          assert s[|r|..][i] == s[..|s| - 1][|r|..][i];
        }
      }
      r
    else s
  }

  /** `trim`: both ends. */
  function Trim(s: string): (r: string)
    ensures |r| <= |s|
    ensures r == [] || (!IsWhitespace(r[0]) && !IsWhitespace(r[|r| - 1]))
  {
    var t := TrimStart(s);
    var r := TrimEnd(t);
    assert r != [] ==> r[0] == t[0];
    r
  }

  /** `s.trim()` is the slice of `s` left once whitespace runs at both ends are cut, and it starts and ends with non-whitespace. */
  lemma TrimShape(s: string)
    ensures exists i {:trigger s[i..]} :: 0 <= i && i + |Trim(s)| <= |s| && Trim(s) == s[i..][..|Trim(s)|]
              && AllWhitespace(s[..i]) && AllWhitespace(s[i + |Trim(s)|..])
    ensures Trim(s) == [] || (!IsWhitespace(Trim(s)[0]) && !IsWhitespace(Trim(s)[|Trim(s)| - 1]))
  {
    var i := TrimOffset(s);
  }

  /** Where `s.trim()` starts in `s`. */
  lemma TrimOffset(s: string) returns (i: nat)
    ensures i + |Trim(s)| <= |s| && Trim(s) == s[i..][..|Trim(s)|]
    ensures AllWhitespace(s[..i]) && AllWhitespace(s[i + |Trim(s)|..])
  {
    var t := TrimStart(s);
    i := |s| - |t|;
    var r := TrimEnd(t);
    PrefixOfSuffix(s, i, t, r);
  }

  /** A prefix `r` of the suffix `t` of `s` that starts at `i`, with a whitespace tail. */
  lemma PrefixOfSuffix(s: string, i: nat, t: string, r: string)
    requires i <= |s| && t == s[i..] && |r| <= |t| && r == t[..|r|] && AllWhitespace(t[|r|..])
    ensures i + |r| <= |s| && r == s[i..][..|r|] && AllWhitespace(s[i + |r|..])
  {
    assert s[i + |r|..] == t[|r|..];
  }

  lemma {:induction false} TrimStartEmptyIffBlank(s: string)
    ensures TrimStart(s) == "" <==> AllWhitespace(s)
  {
    if |s| > 0 {
      TrimStartEmptyIffBlank(s[1..]);
      BlankStep(s);
    }
  }

  /** A text is all whitespace when its first character is whitespace and the rest is. */
  lemma BlankStep(s: string)
    requires |s| > 0
    ensures AllWhitespace(s) <==> IsWhitespace(s[0]) && AllWhitespace(s[1..])
  {
    if IsWhitespace(s[0]) && AllWhitespace(s[1..]) {
      forall k | 0 <= k < |s| ensures IsWhitespace(s[k]) {
        if k > 0 { assert s[k] == s[1..][k - 1]; }
      }
    }
    if AllWhitespace(s) {
      forall k | 0 <= k < |s[1..]| ensures IsWhitespace(s[1..][k]) {
        assert s[1..][k] == s[k + 1];
      }
    }
  }

  lemma TrimEndKeepsLeadingNonBlank(t: string)
    requires t != [] && !IsWhitespace(t[0])
    ensures TrimEnd(t) != ""
  {
  }

  /** `s.trim() === ""` exactly when `s` is made of whitespace only (the empty string included). */
  lemma TrimEmptyIffBlank(s: string)
    ensures Trim(s) == "" <==> AllWhitespace(s)
  {
    TrimStartEmptyIffBlank(s);
    var t := TrimStart(s);
    if t != "" {
      TrimEndKeepsLeadingNonBlank(t);
    }
  }

  lemma TrimStartOfTrimmed(s: string)
    requires s == [] || !IsWhitespace(s[0])
    ensures TrimStart(s) == s
  {
  }

  lemma TrimEndOfTrimmed(s: string)
    requires s == [] || !IsWhitespace(s[|s| - 1])
    ensures TrimEnd(s) == s
  {
  }

  /** Trimming twice is trimming once. */
  lemma TrimIdempotent(s: string)
    ensures Trim(Trim(s)) == Trim(s)
  {
    var r := Trim(s);
    TrimShape(s);
    TrimStartOfTrimmed(r);
    TrimEndOfTrimmed(r);
  }

  // ---------------------------------------------------------------------------
  // split on a single character
  // ---------------------------------------------------------------------------

  /** `s.split(sep)` for a one-character separator: the pieces between separators, keeping empty ones. */
  function Split(s: string, sep: char): (r: seq<string>)
    ensures |r| >= 1
    ensures forall k :: 0 <= k < |r| ==> sep !in r[k]
    ensures sep !in s ==> r == [s]
    ensures sep in s ==> |r| >= 2
  {
    if |s| == 0 then [""]
    else
      var rest := Split(s[1..], sep);
      if s[0] == sep then [""] + rest
      else
        assert sep in s[1..] ==> sep in s;
        assert s == [s[0]] + s[1..];
        [[s[0]] + rest[0]] + rest[1..]
  }

  /** `parts.join(sep)`. */
  function Join(parts: seq<string>, sep: char): string
    requires |parts| >= 1
  {
    if |parts| == 1 then parts[0] else parts[0] + [sep] + Join(parts[1..], sep)
  }

  /** Joining the pieces back with the separator gives the original text. */
  lemma {:induction false} JoinSplit(s: string, sep: char)
    ensures Join(Split(s, sep), sep) == s
  {
    if |s| > 0 {
      var rest := Split(s[1..], sep);
      JoinSplit(s[1..], sep);
      if s[0] == sep {
        assert Split(s, sep)[1..] == rest;
      } else {
        var r := Split(s, sep);
        assert r[0] == [s[0]] + rest[0] && r[1..] == rest[1..];
        if |rest| == 1 {
          assert Join(r, sep) == [s[0]] + rest[0];
        } else {
          assert Join(rest, sep) == rest[0] + [sep] + Join(rest[1..], sep);
          assert Join(r, sep) == [s[0]] + rest[0] + [sep] + Join(rest[1..], sep);
        }
        assert s == [s[0]] + s[1..];
      }
    }
  }

  /** A piece free of separators, followed by a separator, starts its own piece. */
  lemma {:induction false} SplitAfterPiece(p: string, sep: char, rest: string)
    requires sep !in p
    ensures Split(p + [sep] + rest, sep) == [p] + Split(rest, sep)
  {
    if |p| == 0 {
      SplitAtSeparator(sep, rest);
      assert p + [sep] + rest == [sep] + rest;
    } else {
      TailHasNoSeparator(p, sep);
      SplitAfterPiece(p[1..], sep, rest);
      SplitAfterPieceStep(p, sep, rest);
    }
  }

  lemma TailHasNoSeparator(p: string, sep: char)
    requires |p| > 0 && sep !in p
    ensures sep !in p[1..]
  {
    assert forall k :: 0 <= k < |p[1..]| ==> p[1..][k] == p[k + 1];
  }

  /** The step of `SplitAfterPiece`: putting the first character back in front of the piece. */
  lemma SplitAfterPieceStep(p: string, sep: char, rest: string)
    requires |p| > 0 && sep !in p
    requires Split(p[1..] + [sep] + rest, sep) == [p[1..]] + Split(rest, sep)
    ensures Split(p + [sep] + rest, sep) == [p] + Split(rest, sep)
  {
    var t := p[1..] + [sep] + rest;
    JoinFirstPiece(p[0], p[1..], t, sep, Split(rest, sep));
    assert p + [sep] + rest == [p[0]] + t;
    assert [p[0]] + p[1..] == p;
  }

  /** A character other than the separator in front of a text joins its first piece. */
  lemma JoinFirstPiece(c: char, q: string, t: string, sep: char, tail: seq<string>)
    requires c != sep && Split(t, sep) == [q] + tail
    ensures Split([c] + t, sep) == [[c] + q] + tail
  {
    SplitAtOther(c, t, sep);
    assert Split(t, sep)[1..] == tail;
  }

  /** A text that starts with the separator has an empty first piece. */
  lemma SplitAtSeparator(sep: char, rest: string)
    ensures Split([sep] + rest, sep) == [""] + Split(rest, sep)
  {
    assert ([sep] + rest)[1..] == rest;
  }

  /** Any other first character joins the first piece of the rest. */
  lemma SplitAtOther(c: char, t: string, sep: char)
    requires c != sep
    ensures Split([c] + t, sep) == [[c] + Split(t, sep)[0]] + Split(t, sep)[1..]
  {
    assert ([c] + t)[1..] == t;
  }

  /** Splitting a join of separator-free pieces gives the pieces back. */
  lemma {:induction false} SplitJoin(parts: seq<string>, sep: char)
    requires |parts| >= 1
    requires forall k :: 0 <= k < |parts| ==> sep !in parts[k]
    ensures Split(Join(parts, sep), sep) == parts
  {
    if |parts| > 1 {
      SplitJoin(parts[1..], sep);
      SplitAfterPiece(parts[0], sep, Join(parts[1..], sep));
    }
  }

  /** `s.split(sep)[k]`: `None` stands for `undefined` past the last piece. */
  function Piece(s: string, sep: char, k: nat): Option<string> {
    var parts := Split(s, sep);
    if k < |parts| then Some(parts[k]) else None
  }

  // ---------------------------------------------------------------------------
  // toUpperCase
  // ---------------------------------------------------------------------------

  function UpperChar(c: char): char {
    if 'a' <= c <= 'z' then (c as int - 32) as char else c
  }

  /** `toUpperCase`, restricted to the ASCII letters. */
  function ToUpper(s: string): (r: string)
    ensures |r| == |s|
    ensures forall i :: 0 <= i < |r| ==> !('a' <= r[i] <= 'z')
    ensures forall i :: 0 <= i < |s| && !('a' <= s[i] <= 'z') ==> r[i] == s[i]
  {
    seq(|s|, i requires 0 <= i < |s| => UpperChar(s[i]))
  }

  /** Upper-casing twice is upper-casing once. */
  lemma ToUpperIdempotent(s: string)
    ensures |ToUpper(s)| == |s|
    ensures ToUpper(ToUpper(s)) == ToUpper(s)
  {
  }

  // ---------------------------------------------------------------------------
  // decimal numbers
  // ---------------------------------------------------------------------------

  predicate IsDigit(c: char) {
    '0' <= c <= '9'
  }

  predicate AllDigits(s: string) {
    forall i :: 0 <= i < |s| ==> IsDigit(s[i])
  }

  predicate IsDigits(s: string) {
    |s| > 0 && AllDigits(s)
  }

  function DigitValue(c: char): nat
    requires IsDigit(c)
  {
    c as int - '0' as int
  }

  function DigitChar(d: nat): (c: char)
    requires d < 10
    ensures IsDigit(c) && DigitValue(c) == d
  {
    ('0' as int + d) as char
  }

  /** The value of a string of decimal digits, most significant first. */
  function DigitsValue(s: string): nat
    requires AllDigits(s)
  {
    if |s| == 0 then 0 else DigitsValue(s[..|s| - 1]) * 10 + DigitValue(s[|s| - 1])
  }

  /** Decimal printing of a non-negative integer (`String(n)`, `${n}`): digits only, reading back to `n`. */
  function NatToString(n: nat): (r: string)
    ensures IsDigits(r) && DigitsValue(r) == n
    ensures |r| == 1 <==> n < 10
  {
    if n < 10 then [DigitChar(n)]
    else
      var r := NatToString(n / 10) + [DigitChar(n % 10)];
      assert r[..|r| - 1] == NatToString(n / 10);
      r
  }

  /** An integer literal as `Number` reads it: an optional sign and decimal digits. */
  predicate IsIntegerLiteral(t: string) {
    || IsDigits(t)
    || (|t| >= 2 && (t[0] == '+' || t[0] == '-') && IsDigits(t[1..]))
  }

  function LiteralValue(t: string): int
    requires IsIntegerLiteral(t)
  {
    if IsDigits(t) then DigitsValue(t)
    else if t[0] == '-' then -(DigitsValue(t[1..]) as int)
    else DigitsValue(t[1..])
  }

  /**
   * `Number(s)` on integer literals: surrounding whitespace is ignored and a blank string
   * reads as 0. `None` stands for NaN.
   */
  function NumberOf(s: string): (r: Option<int>)
    ensures Trim(s) == "" ==> r == Some(0)
    ensures IsDigits(Trim(s)) ==> r == Some(DigitsValue(Trim(s)) as int)
    ensures r.Some? && Trim(s) != "" ==> IsDigit(Trim(s)[|Trim(s)| - 1])
  {
    var t := Trim(s);
    if t == "" then Some(0)
    else if IsIntegerLiteral(t) then Some(LiteralValue(t))
    else None
  }

  /** `isNaN(s)` on a string. */
  predicate IsNaN(s: string) {
    NumberOf(s).None?
  }

  /** The longest run of digits at the front of `s`. */
  function DigitPrefix(s: string): (r: string)
    ensures AllDigits(r) && r <= s
    ensures |r| < |s| ==> !IsDigit(s[|r|])
  {
    if |s| > 0 && IsDigit(s[0]) then [s[0]] + DigitPrefix(s[1..]) else ""
  }

  /** `parseInt(s, 10)`: leading whitespace, an optional sign, then the longest digit prefix; `None` is NaN. */
  function ParseInt(s: string): (r: Option<int>)
    ensures AllWhitespace(s) ==> r.None?
    ensures IsDigits(s) ==> r == Some(DigitsValue(s) as int)
    ensures r.Some? && r.value < 0 ==> TrimStart(s)[0] == '-'
  {
    ParseIntFacts(s);
    ParseSigned(TrimStart(s))
  }

  lemma ParseIntFacts(s: string)
    ensures AllWhitespace(s) ==> ParseSigned(TrimStart(s)).None?
    ensures IsDigits(s) ==> ParseSigned(TrimStart(s)) == Some(DigitsValue(s) as int)
    ensures ParseSigned(TrimStart(s)).Some? && ParseSigned(TrimStart(s)).value < 0 ==> TrimStart(s)[0] == '-'
  {
    TrimStartEmptyIffBlank(s);
    ParseSignedSign(TrimStart(s));
    if IsDigits(s) {
      DigitsParse(s);
    }
  }

  /** Only a leading minus sign makes `parseInt` negative. */
  lemma ParseSignedSign(t: string)
    ensures ParseSigned(t).Some? && ParseSigned(t).value < 0 ==> t[0] == '-'
  {
  }

  /** A run of digits is not trimmed and reads as its value. */
  lemma DigitsParse(s: string)
    requires IsDigits(s)
    ensures ParseSigned(TrimStart(s)) == Some(DigitsValue(s) as int)
  {
    DigitsAreTrimmed(s);
    assert s[0] != '+' && s[0] != '-';
    DigitPrefixOfDigits(s, "");
    assert s + "" == s;
  }

  /** `parseInt` once the leading whitespace is gone. */
  function ParseSigned(t: string): Option<int> {
    var neg := |t| > 0 && t[0] == '-';
    var body := if |t| > 0 && (t[0] == '+' || t[0] == '-') then t[1..] else t;
    var d := DigitPrefix(body);
    if d == "" then None
    else if neg then Some(-(DigitsValue(d) as int))
    else Some(DigitsValue(d))
  }

  lemma {:induction false} DigitPrefixOfDigits(d: string, w: string)
    requires IsDigits(d)
    requires w == [] || !IsDigit(w[0])
    ensures DigitPrefix(d + w) == d
  {
    if |d| > 1 {
      assert (d + w)[1..] == d[1..] + w;
      DigitPrefixOfDigits(d[1..], w);
    } else {
      assert (d + w)[1..] == w;
    }
  }

  /**
   * On a string that `Number` reads as a non-blank integer literal, `parseInt` reads the same value:
   * this is what makes `!isNaN(q)` followed by `parseInt(q)` well defined.
   */
  lemma ParseSignedLiteral(lit: string, rest: string)
    requires IsIntegerLiteral(lit)
    requires rest == [] || !IsDigit(rest[0])
    ensures ParseSigned(lit + rest) == Some(LiteralValue(lit))
  {
    var t := lit + rest;
    assert t[0] == lit[0];
    if IsDigits(lit) {
      DigitPrefixOfDigits(lit, rest);
    } else {
      assert t[1..] == lit[1..] + rest;
      DigitPrefixOfDigits(lit[1..], rest);
    }
  }

  lemma ParseIntAgreesWithNumber(s: string)
    requires Trim(s) != "" && !IsNaN(s)
    ensures ParseInt(s) == NumberOf(s)
  {
    var rest := TrimmedTail(s);
    ParseSignedLiteral(Trim(s), rest);
  }

  /** What `trimStart` leaves is the trimmed text followed by a tail that starts with no digit. */
  lemma TrimmedTail(s: string) returns (rest: string)
    ensures TrimStart(s) == Trim(s) + rest
    ensures rest == [] || !IsDigit(rest[0])
  {
    var t := TrimStart(s);
    var lit := TrimEnd(t);
    rest := t[|lit|..];
    PrefixAndBlankTail(t, lit);
  }

  /** A prefix `lit` of `t` whose remainder is whitespace leaves a remainder that starts with no digit. */
  lemma PrefixAndBlankTail(t: string, lit: string)
    requires |lit| <= |t| && lit == t[..|lit|] && AllWhitespace(t[|lit|..])
    ensures t == lit + t[|lit|..]
    ensures t[|lit|..] == [] || !IsDigit(t[|lit|..][0])
  {
    var rest := t[|lit|..];
    assert t == lit + rest;
    if rest != [] {
      WhitespaceIsNoDigit(rest[0]);
    }
  }

  lemma WhitespaceIsNoDigit(c: char)
    requires IsWhitespace(c)
    ensures !IsDigit(c)
  {
  }

  lemma DigitIsNoWhitespace(c: char)
    requires IsDigit(c)
    ensures !IsWhitespace(c)
  {
  }

  lemma DigitsAreTrimmed(s: string)
    requires IsDigits(s)
    ensures TrimStart(s) == s && Trim(s) == s
  {
    DigitIsNoWhitespace(s[0]);
    DigitIsNoWhitespace(s[|s| - 1]);
    TrimStartOfTrimmed(s);
    TrimEndOfTrimmed(s);
  }

  /** A run of digits reads as its decimal value through `Number` and `parseInt`. */
  lemma DigitsRead(s: string)
    requires IsDigits(s)
    ensures NumberOf(s) == Some(DigitsValue(s) as int)
    ensures ParseInt(s) == Some(DigitsValue(s) as int)
  {
    DigitsAreTrimmed(s);
    assert IsIntegerLiteral(s) && LiteralValue(s) == DigitsValue(s);
    assert s[0] != '+' && s[0] != '-';
    DigitPrefixOfDigits(s, "");
    assert s + "" == s;
  }

  /** `parseInt` reads a minus sign followed by digits as the negated value of the digits. */
  lemma ParseIntOfSignedDigits(d: string)
    requires IsDigits(d)
    ensures ParseInt("-" + d) == Some(-(DigitsValue(d) as int))
  {
    SignIsNotTrimmed("-" + d);
    ParseSignedNegative(d);
  }

  lemma SignIsNotTrimmed(t: string)
    requires |t| > 0 && t[0] == '-'
    ensures TrimStart(t) == t
  {
    assert !IsWhitespace(t[0]);
  }

  lemma ParseSignedNegative(d: string)
    requires IsDigits(d)
    ensures ParseSigned("-" + d) == Some(-(DigitsValue(d) as int))
  {
    var t := "-" + d;
    assert t[1..] == d;
    assert d + [] == d;
    DigitPrefixOfDigits(d, []);
  }

  /** A printed non-negative integer reads back through `Number` and `parseInt`. */
  lemma NumberOfNatToString(n: nat)
    ensures NumberOf(NatToString(n)) == Some(n)
    ensures ParseInt(NatToString(n)) == Some(n)
  {
    DigitsRead(NatToString(n));
  }
}
