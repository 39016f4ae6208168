/** String operations the application borrows from JavaScript's `String`
    prototype, restated on `seq<char>`: case folding, substring search,
    trimming, splitting, replacing, and decimal conversion of ids. */
module Strings {
  import opened Wrappers

  // ---------------------------------------------------------------------------
  // Case folding (ASCII only: see README, "Left out")
  // ---------------------------------------------------------------------------

  function LowerChar(c: char): char
  {
    if 'A' <= c <= 'Z' then (c as int + 32) as char else c
  }

  /** `s.toLowerCase()` on the ASCII range. */
  function Lower(s: string): (r: string)
    ensures |r| == |s|
    ensures forall i :: 0 <= i < |s| ==> r[i] == LowerChar(s[i])
    ensures forall i :: 0 <= i < |r| ==> !('A' <= r[i] <= 'Z')
  {
    if s == [] then [] else [LowerChar(s[0])] + Lower(s[1..])
  }

  // ---------------------------------------------------------------------------
  // Substring search
  // ---------------------------------------------------------------------------

  /** `t` occurs in `s` starting at position `i`. */
  ghost predicate OccursAt(s: string, t: string, i: int)
  {
    0 <= i && i + |t| <= |s| && s[i..i + |t|] == t
  }

  predicate StartsWith(s: string, t: string)
  {
    |t| <= |s| && s[..|t|] == t
  }

  /** The first position at which `t` occurs in `s` (`s.indexOf(t)`), or `None`
      for JavaScript's -1. */
  function IndexOf(s: string, t: string): (r: Option<nat>)
    ensures r.Some? ==> OccursAt(s, t, r.value)
    ensures r.Some? ==> forall j :: 0 <= j < r.value ==> !OccursAt(s, t, j)
    ensures r.None? ==> forall j :: !OccursAt(s, t, j)
    decreases |s|
  {
    if StartsWith(s, t) then
      assert s[0..|t|] == s[..|t|];
      Some(0)
    else if s == [] then
      None
    else
      var rest := IndexOf(s[1..], t);
      assert forall j :: 1 <= j ==> (OccursAt(s, t, j) <==> OccursAt(s[1..], t, j - 1)) by {
        forall j | 1 <= j
          ensures OccursAt(s, t, j) <==> OccursAt(s[1..], t, j - 1)
        {
          if j + |t| <= |s| {
            TailSlice(s, j - 1, j - 1 + |t|);
          }
        }
      }
      assert !OccursAt(s, t, 0);
      match rest
      case None => None
      case Some(k) => Some(k + 1)
  }

  lemma TailSlice(s: string, a: int, b: int)
    requires 0 <= a <= b < |s|
    ensures s[1..][a..b] == s[a + 1..b + 1]
  {
  }

  /** `s.includes(t)`. */
  function Contains(s: string, t: string): (r: bool)
    ensures r <==> exists i :: OccursAt(s, t, i)
  {
    IndexOf(s, t).Some?
  }

  // ---------------------------------------------------------------------------
  // Trimming
  // ---------------------------------------------------------------------------

  /** The characters `String.prototype.trim` removes: ECMAScript's WhiteSpace
      and LineTerminator productions. */
  predicate IsJsWhitespace(c: char)
  {
    c == '\t' || c == '\n' || c == '\U{000B}' || c == '\U{000C}' || c == '\r' || c == ' '
    || c == '\U{00A0}' || c == '\U{1680}' || ('\U{2000}' <= c <= '\U{200A}')
    || c == '\U{2028}' || c == '\U{2029}' || c == '\U{202F}' || c == '\U{205F}'
    || c == '\U{3000}' || c == '\U{FEFF}'
  }

  function TrimStart(s: string): (r: string)
    ensures |r| <= |s| && r == s[|s| - |r|..]
    ensures r == [] || !IsJsWhitespace(r[0])
    ensures forall i :: 0 <= i < |s| - |r| ==> IsJsWhitespace(s[i])
  {
    if s != [] && IsJsWhitespace(s[0]) then TrimStart(s[1..]) else s
  }

  function TrimEnd(s: string): (r: string)
    ensures |r| <= |s| && r == s[..|r|]
    ensures r == [] || !IsJsWhitespace(r[|r| - 1])
    ensures forall i :: |r| <= i < |s| ==> IsJsWhitespace(s[i])
  {
    if s != [] && IsJsWhitespace(s[|s| - 1]) then TrimEnd(s[..|s| - 1]) else s
  }

  /** `s.trim()`: the longest slice of `s` that neither starts nor ends with
      whitespace; it is empty exactly when `s` is all whitespace. */
  function Trim(s: string): (r: string)
    ensures r == [] || (!IsJsWhitespace(r[0]) && !IsJsWhitespace(r[|r| - 1]))
    ensures exists k :: OccursAt(s, r, k)
    ensures r == [] <==> forall i :: 0 <= i < |s| ==> IsJsWhitespace(s[i])
  {
    var a := TrimStart(s);
    var r := TrimEnd(a);
    assert OccursAt(s, r, |s| - |a|);
    r
  }

  // ---------------------------------------------------------------------------
  // Splitting and replacing
  // ---------------------------------------------------------------------------

  /** `s.split(sep)[0]`: the text before the first `sep`, or all of `s`. */
  function Before(s: string, sep: char): (r: string)
    ensures StartsWith(s, r)
    ensures sep !in r
    ensures |r| < |s| ==> s[|r|] == sep
  {
    if s == [] || s[0] == sep then [] else [s[0]] + Before(s[1..], sep)
  }

  /** The text after the first `sep`, when there is one. */
  function After(s: string, sep: char): (r: Option<string>)
    ensures r.None? <==> sep !in s
    ensures r.Some? ==> s == Before(s, sep) + [sep] + r.value
  {
    if s == [] then None
    else if s[0] == sep then Some(s[1..])
    else
      match After(s[1..], sep)
      case None => None
      case Some(t) => Some(t)
  }

  /** The first two pieces of `s.split(sep)`, as JavaScript's
      `const [a, b] = s.split(sep)` binds them (`b` is `undefined` when `s`
      holds no separator). */
  function FirstTwoPieces(s: string, sep: char): (r: (string, Option<string>))
    ensures r.0 == Before(s, sep)
    ensures r.1.None? <==> sep !in s
    ensures r.1.Some? ==> sep !in r.1.value
  {
    match After(s, sep)
    case None => (Before(s, sep), None)
    case Some(t) => (Before(s, sep), Some(Before(t, sep)))
  }

  /** Splitting `x + sep + y` where neither part holds the separator gives
      back the two parts. */
  lemma {:induction false} SplitJoined(x: string, y: string, sep: char)
    requires sep !in x && sep !in y
    ensures FirstTwoPieces(x + [sep] + y, sep) == (x, Some(y))
  {
    var s := x + [sep] + y;
    BeforeJoined(x, [sep] + y, sep);
    assert s == x + ([sep] + y);
    var t := After(s, sep).value;
    assert s == x + [sep] + t;
    assert t == s[|x| + 1..] == y;
    BeforeJoined(y, [], sep);
    assert y + [] == y;
  }

  /** `Before` stops at the first separator after a separator-free prefix. */
  lemma {:induction false} BeforeJoined(x: string, rest: string, sep: char)
    requires sep !in x && (rest == [] || rest[0] == sep)
    ensures Before(x + rest, sep) == x
  {
    if x != [] {
      assert (x + rest)[0] == x[0] && (x + rest)[1..] == x[1..] + rest;
      BeforeJoined(x[1..], rest, sep);
    } else {
      assert x + rest == rest;
    }
  }

  /** `s.replace(t, '')` with a string pattern: the first occurrence of `t`,
      if any, is cut out; everything else is kept in order. */
  function RemoveFirst(s: string, t: string): (r: string)
    ensures IndexOf(s, t).None? ==> r == s
    ensures IndexOf(s, t).Some? ==>
      var i := IndexOf(s, t).value; r == s[..i] + s[i + |t|..]
  {
    match IndexOf(s, t)
    case None => s
    case Some(i) => s[..i] + s[i + |t|..]
  }

  /** `s.replace(/pat/g, rep)` for a literal, non-empty pattern: a left-to-right
      scan that replaces each non-overlapping occurrence. */
  function ReplaceAll(s: string, pat: string, rep: string): (r: string)
    requires pat != []
    decreases |s|
  {
    if s == [] then []
    else if StartsWith(s, pat) then rep + ReplaceAll(s[|pat|..], pat, rep)
    else [s[0]] + ReplaceAll(s[1..], pat, rep)
  }

  /** A pattern that does not occur is not replaced. */
  lemma {:induction false} ReplaceAbsent(s: string, pat: string, rep: string)
    requires pat != [] && !Contains(s, pat)
    ensures ReplaceAll(s, pat, rep) == s
    decreases |s|
  {
    if s != [] {
      assert !OccursAt(s, pat, 0);
      forall i | 0 <= i && i + |pat| <= |s| - 1
        ensures !OccursAt(s[1..], pat, i)
      {
        assert s[1..][i..i + |pat|] == s[i + 1..i + 1 + |pat|];
        assert !OccursAt(s, pat, i + 1);
      }
      ReplaceAbsent(s[1..], pat, rep);
      assert [s[0]] + s[1..] == s;
    }
  }

  /** A character that does not occur is not replaced. */
  lemma {:induction false} ReplaceCharAbsent(s: string, c: char, rep: string)
    requires c !in s
    ensures ReplaceAll(s, [c], rep) == s
  {
    if s != [] {
      assert s == [s[0]] + s[1..];
      ReplaceCharCons(s[0], s[1..], c, rep);
      ReplaceCharAbsent(s[1..], c, rep);
    }
  }

  /** With a one-character pattern the replacement is a character-by-character
      map, so it distributes over concatenation. */
  lemma {:induction false} ReplaceCharDistributes(a: string, b: string, c: char, rep: string)
    ensures ReplaceAll(a + b, [c], rep) == ReplaceAll(a, [c], rep) + ReplaceAll(b, [c], rep)
    decreases |a|
  {
    if a == [] {
      assert a + b == b;
    } else {
      var x, rest := a[0], a[1..];
      assert a == [x] + rest;
      assert a + b == [x] + (rest + b);
      ReplaceCharCons(x, rest + b, c, rep);
      ReplaceCharCons(x, rest, c, rep);
      ReplaceCharDistributes(rest, b, c, rep);
    }
  }

  /** One step of a one-character replacement. */
  lemma ReplaceCharCons(x: char, rest: string, c: char, rep: string)
    ensures ReplaceAll([x] + rest, [c], rep)
            == (if x == c then rep else [x]) + ReplaceAll(rest, [c], rep)
  {
    var s := [x] + rest;
    assert s[..1] == [x];
    assert s[1..] == rest;
  }

  // ---------------------------------------------------------------------------
  // Decimal numerals for ids
  // ---------------------------------------------------------------------------

  predicate IsDigit(c: char)
  {
    '0' <= c <= '9'
  }

  predicate AllDigits(s: string)
  {
    forall i :: 0 <= i < |s| ==> IsDigit(s[i])
  }

  function DigitChar(d: nat): (c: char)
    requires d < 10
    ensures IsDigit(c)
  {
    ('0' as int + d) as char
  }

  /** The value of a string of decimal digits; leading zeros are allowed. */
  function DigitsValue(s: string): nat
    requires AllDigits(s)
  {
    if s == [] then 0
    else DigitsValue(s[..|s| - 1]) * 10 + (s[|s| - 1] as int - '0' as int)
  }

  /** A natural number written in decimal, as a template literal `${n}` does. */
  function NatToString(n: nat): (r: string)
    ensures r != [] && AllDigits(r)
    ensures '_' !in r
  {
    if n < 10 then [DigitChar(n)] else NatToString(n / 10) + [DigitChar(n % 10)]
  }

  /** Writing a number and reading it back gives the number. */
  lemma {:induction false} NatToStringRoundTrip(n: nat)
    ensures DigitsValue(NatToString(n)) == n
  {
    if n >= 10 {
      var s := NatToString(n);
      assert s[..|s| - 1] == NatToString(n / 10);
      NatToStringRoundTrip(n / 10);
    }
  }

  /** Different numbers are written differently. */
  lemma NatToStringInjective(m: nat, n: nat)
    requires NatToString(m) == NatToString(n)
    ensures m == n
  {
    NatToStringRoundTrip(m);
    NatToStringRoundTrip(n);
  }

  /** An integer written in decimal, as a template literal `${n}` does: a
      minus sign in front of the digits of a negative number. */
  function IntToString(n: int): (r: string)
    ensures r != [] && '_' !in r
    ensures r[0] == '-' <==> n < 0
    ensures n >= 0 ==> r == NatToString(n)
    ensures n < 0 ==> r[1..] == NatToString(-n)
  {
    if n >= 0 then NatToString(n) else "-" + NatToString(-n)
  }

  /** Different integers are written differently. */
  lemma IntToStringInjective(m: int, n: int)
    requires IntToString(m) == IntToString(n)
    ensures m == n
  {
    if m < 0 {
      NatToStringInjective(-m, -n);
    } else {
      NatToStringInjective(m, n);
    }
  }

  /** JavaScript's `Number(s)` on the strings that occur as id pieces: the empty
      string converts to 0, a string of digits to its value, anything else to
      NaN (`None`). */
  function NumberOf(s: string): (r: Option<nat>)
    ensures s == [] ==> r == Some(0)
    ensures s != [] && AllDigits(s) ==> r == Some(DigitsValue(s))
    ensures !AllDigits(s) ==> r.None?
  {
    if s == [] then Some(0) else if AllDigits(s) then Some(DigitsValue(s)) else None
  }

  /** The longest prefix of digits. */
  function DigitPrefix(s: string): (r: string)
    ensures AllDigits(r) && StartsWith(s, r)
    ensures |r| < |s| ==> !IsDigit(s[|r|])
  {
    if s != [] && IsDigit(s[0]) then [s[0]] + DigitPrefix(s[1..]) else []
  }

  /** JavaScript's `parseInt(s)` on unsigned input: the value of the leading
      digits, or NaN (`None`) when `s` does not start with a digit. */
  function ParseIntOf(s: string): (r: Option<nat>)
    ensures r.None? <==> (s == [] || !IsDigit(s[0]))
    ensures AllDigits(s) && s != [] ==> r == Some(DigitsValue(s))
  {
    var p := DigitPrefix(s);
    if p == [] then None
    else
      assert AllDigits(s) ==> p == s;
      Some(DigitsValue(p))
  }

  /** `parseInt` stops at the first character that is not a digit: digits
      followed by anything else read as the digits alone. */
  lemma {:induction false} ParseIntIgnoresTail(d: string, rest: string)
    requires d != [] && AllDigits(d)
    requires rest == [] || !IsDigit(rest[0])
    ensures ParseIntOf(d + rest) == Some(DigitsValue(d))
  {
    DigitPrefixOf(d, rest);
  }

  /** The digit prefix of digits followed by a non-digit is the digits. */
  lemma {:induction false} DigitPrefixOf(d: string, rest: string)
    requires AllDigits(d)
    requires rest == [] || !IsDigit(rest[0])
    ensures DigitPrefix(d + rest) == d
  {
    if d != [] {
      assert (d + rest)[1..] == d[1..] + rest;
      DigitPrefixOf(d[1..], rest);
      assert d == [d[0]] + d[1..];
    } else {
      assert d + rest == rest;
    }
  }

  /** Reading back a written number, as `Number` or as `parseInt`, gives the
      number. */
  lemma ReadWrittenNumber(n: nat)
    ensures NumberOf(NatToString(n)) == Some(n)
    ensures ParseIntOf(NatToString(n)) == Some(n)
  {
    NatToStringRoundTrip(n);
  }
}
