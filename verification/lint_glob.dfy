/** The file selection of `vite-eslint-plugin.js`'s hot-update hook: the
    plugin's own `minimatch`, which rewrites a glob into the source of a
    regular expression by four global replacements, and the `shouldLint`
    decision over the include and exclude patterns. Evaluating the regular
    expression is foreign and is a parameter. */
module LintGlob {
  import opened Wrappers
  import opened Strings

  // ---------------------------------------------------------------------------
  // The rewrite as written
  // ---------------------------------------------------------------------------

  /** Every dot of `s` is preceded by a backslash, so a regular expression
      reads it as a literal dot. */
  predicate DotsEscaped(s: string)
  {
    forall i :: 0 <= i < |s| && s[i] == '.' ==> 0 < i && s[i - 1] == '\\'
  }

  /** `.replace(/\./g, '\\.')`: every dot escaped, nothing else changed. */
  function EscapeDots(p: string): (r: string)
    ensures DotsEscaped(r)
    ensures '.' !in p ==> r == p
  {
    ReplaceDotEscapes(p);
    assert '.' !in p ==> ReplaceAll(p, ".", "\\.") == p by {
      if '.' !in p {
        ReplaceCharAbsent(p, '.', "\\.");
      }
    }
    ReplaceAll(p, ".", "\\.")
  }

  /** The dot pass leaves no bare dot. */
  lemma {:induction false} ReplaceDotEscapes(p: string)
    ensures DotsEscaped(ReplaceAll(p, ".", "\\."))
  {
    if p != [] {
      var x, rest := p[0], p[1..];
      assert p == [x] + rest;
      ReplaceCharCons(x, rest, '.', "\\.");
      ReplaceDotEscapes(rest);
      var head: string := if x == '.' then "\\." else [x];
      var t := ReplaceAll(rest, ".", "\\.");
      var r := head + t;
      forall i | 0 <= i < |r| && r[i] == '.'
        ensures 0 < i && r[i - 1] == '\\'
      {
        if i >= |head| {
          assert r[i] == t[i - |head|];
          if i > |head| {
            assert r[i - 1] == t[i - 1 - |head|];
          }
        }
      }
    }
  }

  /** Reading a backslash-dot pair back as a dot. */
  function UnescapeDots(s: string): string
    decreases |s|
  {
    if s == [] then []
    else if |s| >= 2 && s[0] == '\\' && s[1] == '.' then "." + UnescapeDots(s[2..])
    else [s[0]] + UnescapeDots(s[1..])
  }

  /** Escaping loses nothing: reading the escapes back gives the glob again,
      even one that already holds backslashes. */
  lemma {:induction false} EscapeDotsRoundTrip(p: string)
    ensures UnescapeDots(EscapeDots(p)) == p
  {
    if p != [] {
      var x, rest := p[0], p[1..];
      assert p == [x] + rest;
      ReplaceCharCons(x, rest, '.', "\\.");
      EscapeDotsRoundTrip(rest);
      var t := EscapeDots(rest);
      assert t != [] ==> t[0] != '.';
      if x == '.' {
        assert EscapeDots(p) == "\\." + t;
        assert ("\\." + t)[2..] == t;
      } else {
        assert EscapeDots(p) == [x] + t;
        assert ([x] + t)[1..] == t;
      }
    }
  }

  /** The regular expression source `minimatch` builds: dots escaped, then
      `**` to `.*`, then `*` to `[^/]*`, then `?` to `.`, each pass over the
      previous pass's output. On a glob without a double star this is the
      intended translation. */
  function GlobToRegexAsWritten(pattern: string): (r: string)
    ensures !Contains(pattern, "**") ==> r == Translate(pattern)
  {
    var r := ReplaceAll(ReplaceAll(ReplaceAll(EscapeDots(pattern), "**", ".*"), "*", "[^/]*"), "?", ".");
    assert !Contains(pattern, "**") ==> r == Translate(pattern) by {
      if !Contains(pattern, "**") {
        NoDoubleStarIsNotContains(pattern);
        EscapeDotsKeepsStars(pattern);
        NoDoubleStarIsNotContains(EscapeDots(pattern));
        ReplaceAbsent(EscapeDots(pattern), "**", ".*");
        CharPasses(pattern);
      }
    }
    r
  }

  // ---------------------------------------------------------------------------
  // The rewrite as intended
  // ---------------------------------------------------------------------------

  /** One left-to-right pass: a dot is escaped, `**` matches anything, a
      single `*` anything but a slash, `?` any one character; every other
      character is copied. */
  function Translate(pattern: string): (r: string)
    ensures pattern == [] ==> r == []
  {
    if pattern == [] then []
    else if pattern[0] == '.' then "\\." + Translate(pattern[1..])
    else if pattern[0] == '*' && |pattern| > 1 && pattern[1] == '*' then ".*" + Translate(pattern[2..])
    else if pattern[0] == '*' then "[^/]*" + Translate(pattern[1..])
    else if pattern[0] == '?' then "." + Translate(pattern[1..])
    else [pattern[0]] + Translate(pattern[1..])
  }

  /** The second pass also rewrites the star that the first pass put into
      `.*`, so a double star comes out as `.[^/]*` (one character, then no
      slash) instead of `.*`. */
  lemma DoubleStarAsWritten()
    ensures GlobToRegexAsWritten("**") == ".[^/]*"
    ensures Translate("**") == ".*"
  {
    NotContainsChar("**", '.');
    assert EscapeDots("**") == "**";
    var s := "**";
    assert StartsWith(s, "**");
    assert s[2..] == [];
    assert ReplaceAll("**", "**", ".*") == ".*";
    ReplaceCharCons('.', "*", '*', "[^/]*");
    ReplaceCharCons('*', "", '*', "[^/]*");
    assert ReplaceAll(".*", "*", "[^/]*") == ".[^/]*";
    NotContainsChar(".[^/]*", '?');
    var t := Translate("**");
    assert "**"[2..] == [];
  }

  /** Two adjacent stars. */
  ghost predicate NoDoubleStar(s: string)
  {
    forall i :: 0 <= i < |s| - 1 ==> !(s[i] == '*' && s[i + 1] == '*')
  }

  lemma NoDoubleStarIsNotContains(s: string)
    ensures NoDoubleStar(s) <==> !Contains(s, "**")
  {
    if !NoDoubleStar(s) {
      var i :| 0 <= i < |s| - 1 && s[i] == '*' && s[i + 1] == '*';
      assert s[i..i + 2] == "**";
      assert OccursAt(s, "**", i);
    }
    if Contains(s, "**") {
      var i :| OccursAt(s, "**", i);
      assert s[i] == s[i..i + 2][0] && s[i + 1] == s[i..i + 2][1];
    }
  }

  /** A character that does not occur is not replaced. */
  lemma NotContainsChar(s: string, c: char)
    requires c !in s
    ensures !Contains(s, [c])
    ensures forall rep :: ReplaceAll(s, [c], rep) == s
  {
    forall i | 0 <= i < |s|
      ensures !OccursAt(s, [c], i)
    {
      assert s[i..i + 1][0] == s[i];
    }
    forall rep ensures ReplaceAll(s, [c], rep) == s {
      ReplaceCharAbsent(s, c, rep);
    }
  }

  /** Joining two strings without a double star, where the seam is not
      two stars either. */
  lemma NoDoubleStarConcat(a: string, b: string)
    requires NoDoubleStar(a) && NoDoubleStar(b)
    requires !(a != [] && b != [] && a[|a| - 1] == '*' && b[0] == '*')
    ensures NoDoubleStar(a + b)
  {
    var s := a + b;
    forall i | 0 <= i < |s| - 1
      ensures !(s[i] == '*' && s[i + 1] == '*')
    {
      if i + 1 < |a| {
        assert s[i] == a[i] && s[i + 1] == a[i + 1];
      } else if i >= |a| {
        assert s[i] == b[i - |a|] && s[i + 1] == b[i + 1 - |a|];
      }
    }
  }

  /** Escaping dots adds no star and keeps the first character a star
      exactly when it was one. */
  lemma {:induction false} EscapeDotsKeepsStars(p: string)
    requires NoDoubleStar(p)
    ensures NoDoubleStar(EscapeDots(p))
    ensures EscapeDots(p) == [] <==> p == []
    ensures p != [] ==> (EscapeDots(p)[0] == '*' <==> p[0] == '*')
  {
    if p != [] {
      var x, rest := p[0], p[1..];
      assert p == [x] + rest;
      ReplaceCharCons(x, rest, '.', "\\.");
      assert NoDoubleStar(rest) by {
        forall i | 0 <= i < |rest| - 1
          ensures !(rest[i] == '*' && rest[i + 1] == '*')
        {
          assert rest[i] == p[i + 1] && rest[i + 1] == p[i + 2];
        }
      }
      EscapeDotsKeepsStars(rest);
      var head: string := if x == '.' then "\\." else [x];
      assert EscapeDots(p) == head + EscapeDots(rest);
      NoDoubleStarConcat(head, EscapeDots(rest));
    }
  }

  /** The star and question-mark passes, then the dot pass, on one character. */
  function CharImage(x: char): string
  {
    if x == '.' then "\\." else if x == '*' then "[^/]*" else if x == '?' then "." else [x]
  }

  lemma CharPassesOne(x: char)
    ensures ReplaceAll(ReplaceAll(EscapeDots([x]), "*", "[^/]*"), "?", ".") == CharImage(x)
  {
    if x == '.' {
      DotImage();
    } else if x == '*' {
      StarImage();
    } else {
      PlainImage(x);
    }
  }

  lemma DotImage()
    ensures ReplaceAll(ReplaceAll(EscapeDots("."), "*", "[^/]*"), "?", ".") == "\\."
  {
    ReplaceCharCons('.', [], '.', "\\.");
    assert "\\." + [] == "\\.";
    NotContainsChar("\\.", '*');
    NotContainsChar("\\.", '?');
  }

  lemma StarImage()
    ensures ReplaceAll(ReplaceAll(EscapeDots("*"), "*", "[^/]*"), "?", ".") == "[^/]*"
  {
    NotContainsChar("*", '.');
    ReplaceCharCons('*', [], '*', "[^/]*");
    assert "[^/]*" + [] == "[^/]*";
    NotContainsChar("[^/]*", '?');
  }

  lemma PlainImage(x: char)
    requires x != '.' && x != '*'
    ensures ReplaceAll(ReplaceAll(EscapeDots([x]), "*", "[^/]*"), "?", ".") == (if x == '?' then "." else [x])
  {
    ReplaceCharCons(x, [], '.', "\\.");
    ReplaceCharCons(x, [], '*', "[^/]*");
    ReplaceCharCons(x, [], '?', ".");
    assert [x] + [] == [x];
    assert "." + [] == ".";
  }

  /** On a pattern without a double star, the three character passes
      together are the intended translation. */
  lemma {:induction false} CharPasses(p: string)
    requires NoDoubleStar(p)
    ensures ReplaceAll(ReplaceAll(EscapeDots(p), "*", "[^/]*"), "?", ".") == Translate(p)
  {
    if p != [] {
      var x, rest := p[0], p[1..];
      assert p == [x] + rest;
      assert NoDoubleStar(rest) by {
        forall i | 0 <= i < |rest| - 1
          ensures !(rest[i] == '*' && rest[i + 1] == '*')
        {
          assert rest[i] == p[i + 1] && rest[i + 1] == p[i + 2];
        }
      }
      CharPasses(rest);
      ReplaceCharDistributes([x], rest, '.', "\\.");
      var e1, e2 := EscapeDots([x]), EscapeDots(rest);
      ReplaceCharDistributes(e1, e2, '*', "[^/]*");
      var s1, s2 := ReplaceAll(e1, "*", "[^/]*"), ReplaceAll(e2, "*", "[^/]*");
      ReplaceCharDistributes(s1, s2, '?', ".");
      CharPassesOne(x);
      assert x == '*' ==> !(|p| > 1 && p[1] == '*');
    }
  }

  // ---------------------------------------------------------------------------
  // shouldLint
  // ---------------------------------------------------------------------------

  /** The plugin's options after `{ ...defaultOptions, ...options }`. */
  datatype Options = Options(includes: seq<string>, excludes: seq<string>)

  const DefaultOptions := Options(["src/**/*.{vue,js,jsx,ts,tsx}"], ["node_modules/**", "dist/**", "public/**", "docs/**"])

  /** A given list replaces the default one; a missing one keeps it. */
  function Resolve(includes: Option<seq<string>>, excludes: Option<seq<string>>): (o: Options)
    ensures o.includes == includes.GetOr(DefaultOptions.includes)
    ensures o.excludes == excludes.GetOr(DefaultOptions.excludes)
  {
    Options(includes.GetOr(DefaultOptions.includes), excludes.GetOr(DefaultOptions.excludes))
  }

  /** `patterns.some(glob => minimatch(file, glob))`, where `toRegex` builds
      the regular expression source and `test(source, file)` is
      `new RegExp(source).test(file)`. */
  function SomeMatches(file: string, patterns: seq<string>, toRegex: string -> string,
                       test: (string, string) -> bool): (r: bool)
    ensures r <==> exists i :: 0 <= i < |patterns| && test(toRegex(patterns[i]), file)
  {
    if patterns == [] then false
    else test(toRegex(patterns[0]), file) || SomeMatches(file, patterns[1..], toRegex, test)
  }

  /** `shouldLint` as written: some include pattern matches and no exclude
      pattern does, each through the plugin's own `minimatch`. */
  function ShouldLint(o: Options, file: string, test: (string, string) -> bool): (r: bool)
    ensures r <==> (exists i :: 0 <= i < |o.includes| && test(GlobToRegexAsWritten(o.includes[i]), file))
                   && (forall j :: 0 <= j < |o.excludes| ==> !test(GlobToRegexAsWritten(o.excludes[j]), file))
  {
    SomeMatches(file, o.includes, GlobToRegexAsWritten, test)
    && !SomeMatches(file, o.excludes, GlobToRegexAsWritten, test)
  }

  /** `shouldLint` with the intended translation, where `**` crosses
      directories. */
  function ShouldLintIntended(o: Options, file: string, test: (string, string) -> bool): (r: bool)
    ensures r <==> (exists i :: 0 <= i < |o.includes| && test(Translate(o.includes[i]), file))
                   && (forall j :: 0 <= j < |o.excludes| ==> !test(Translate(o.excludes[j]), file))
  {
    SomeMatches(file, o.includes, Translate, test) && !SomeMatches(file, o.excludes, Translate, test)
  }

  /** No pattern of the list has a double star. */
  predicate NoDoubleStars(patterns: seq<string>)
  {
    forall i :: 0 <= i < |patterns| ==> !Contains(patterns[i], "**")
  }

  /** Options whose patterns have no double star are decided as intended. */
  lemma ShouldLintAgrees(o: Options, file: string, test: (string, string) -> bool)
    requires NoDoubleStars(o.includes) && NoDoubleStars(o.excludes)
    ensures ShouldLint(o, file, test) == ShouldLintIntended(o, file, test)
  {
  }

  /** With the single include pattern `**`, the plugin tests `.[^/]*` where
      `.*` was meant: a file in a sub-directory is matched only if the
      expression finds a slash-free stretch, and the empty path not at all. */
  lemma ShouldLintDoubleStar(file: string, test: (string, string) -> bool)
    ensures ShouldLint(Options(["**"], []), file, test) == test(".[^/]*", file)
    ensures ShouldLintIntended(Options(["**"], []), file, test) == test(".*", file)
  {
    DoubleStarAsWritten();
  }
}
