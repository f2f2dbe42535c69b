/** The LIKE operator of the search language: a glob is turned into a regular expression
    by two textual replacements, and the expression is searched anywhere in the text. */
module LikePattern {

  function Replace(s: string, c: char, subst: string): string {
    if s == [] then [] else (if s[0] == c then subst else [s[0]]) + Replace(s[1..], c, subst)
  }

  /** The translation: dots escaped first, then every star turned into "any run". */
  function LikeToRegex(pattern: string): string {
    Replace(Replace(pattern, '.', "\\."), '*', ".*")
  }

  // ------------------------------------------------ regular expressions, as searched

  predicate AtomMatches(atom: char, c: char) {
    if atom == '.' then c != '\n' else c == atom
  }

  ghost predicate Run(atom: char, s: string) {
    forall i :: 0 <= i < |s| ==> AtomMatches(atom, s[i])
  }

  /** Does the expression match a prefix of `s`? Literals, escapes, dot, and a star after one of these. */
  ghost predicate MatchHere(re: string, s: string)
    decreases |re|
  {
    if re == [] then true
    else if |re| >= 2 && re[0] == '\\' then
      s != [] && s[0] == re[1] && MatchHere(re[2..], s[1..])
    else if |re| >= 2 && re[1] == '*' then
      exists k :: 0 <= k <= |s| && Run(re[0], s[..k]) && MatchHere(re[2..], s[k..])
    else
      s != [] && AtomMatches(re[0], s[0]) && MatchHere(re[1..], s[1..])
  }

  ghost predicate RegexSearch(re: string, s: string) {
    exists k :: 0 <= k <= |s| && MatchHere(re, s[k..])
  }

  // -------------------------------------------------------------- globs, as intended

  /** The whole of `s` matches the glob; a star stands for any run of characters of one line. */
  ghost predicate Glob(pattern: string, s: string) {
    if pattern == [] then s == []
    else if pattern[0] == '*' then
      exists k :: 0 <= k <= |s| && '\n' !in s[..k] && Glob(pattern[1..], s[k..])
    else s != [] && s[0] == pattern[0] && Glob(pattern[1..], s[1..])
  }

  ghost predicate GlobPrefix(pattern: string, s: string) {
    exists j :: 0 <= j <= |s| && Glob(pattern, s[..j])
  }

  /** Some stretch of the text matches the glob. */
  ghost predicate Like(pattern: string, s: string) {
    exists i, j :: 0 <= i <= j <= |s| && Glob(pattern, s[i..j])
  }

  /** No regular-expression metacharacter other than the dot and the star. */
  predicate Plain(pattern: string) {
    forall c :: c in pattern ==> c !in "^$+?()[]{}|\\"
  }

  // ------------------------------------------------------------------ the translation

  function Token(c: char): string {
    if c == '.' then "\\." else if c == '*' then ".*" else [c]
  }

  lemma {:induction false} ReplaceConcat(a: string, b: string, c: char, subst: string)
    ensures Replace(a + b, c, subst) == Replace(a, c, subst) + Replace(b, c, subst)
  {
    if a == [] {
      assert a + b == b;
    } else {
      assert (a + b)[1..] == a[1..] + b;
      ReplaceConcat(a[1..], b, c, subst);
    }
  }

  lemma TokenByToken(pattern: string)
    requires pattern != []
    ensures LikeToRegex(pattern) == Token(pattern[0]) + LikeToRegex(pattern[1..])
  {
    var head := if pattern[0] == '.' then "\\." else [pattern[0]];
    ReplaceConcat(head, Replace(pattern[1..], '.', "\\."), '*', ".*");
    assert Replace("\\.", '*', ".*") == "\\." by {
      assert "\\."[1..] == ".";
    }
    assert [pattern[0]][1..] == [];
  }

  lemma {:induction false} MatchIsGlobPrefix(pattern: string, s: string)
    requires Plain(pattern)
    ensures MatchHere(LikeToRegex(pattern), s) <==> GlobPrefix(pattern, s)
    decreases |pattern|, 0
  {
    if pattern == [] {
      assert s[..0] == [] && Glob(pattern, s[..0]);
    } else {
      var c, rest := pattern[0], pattern[1..];
      TokenByToken(pattern);
      var re := LikeToRegex(pattern);
      if c == '*' {
        assert re[2..] == LikeToRegex(rest);
        StarStep(rest, s);
      } else {
        assert c in pattern;
        assert re[|Token(c)|..] == LikeToRegex(rest);
        assert MatchHere(re, s) <==> s != [] && s[0] == c && MatchHere(LikeToRegex(rest), s[1..]);
        if s != [] { MatchIsGlobPrefix(rest, s[1..]); }
        LiteralStep(pattern, s);
      }
    }
  }

  lemma LiteralStep(pattern: string, s: string)
    requires pattern != [] && pattern[0] != '*'
    ensures GlobPrefix(pattern, s) <==> s != [] && s[0] == pattern[0] && GlobPrefix(pattern[1..], s[1..])
  {
    if GlobPrefix(pattern, s) {
      var j :| 0 <= j <= |s| && Glob(pattern, s[..j]);
      assert s[..j][1..] == s[1..][..j - 1];
    }
    if s != [] && s[0] == pattern[0] && GlobPrefix(pattern[1..], s[1..]) {
      var j :| 0 <= j <= |s[1..]| && Glob(pattern[1..], s[1..][..j]);
      assert s[..j + 1][1..] == s[1..][..j];
      assert Glob(pattern, s[..j + 1]);
    }
  }

  lemma DotRunIsOneLine(s: string)
    ensures Run('.', s) <==> '\n' !in s
  {
    if '\n' !in s {
      forall i | 0 <= i < |s| ensures AtomMatches('.', s[i]) { assert s[i] in s; }
    }
  }

  lemma StarStep(rest: string, s: string)
    requires Plain(rest)
    ensures GlobPrefix("*" + rest, s) <==>
            exists k :: 0 <= k <= |s| && Run('.', s[..k]) && MatchHere(LikeToRegex(rest), s[k..])
    decreases |rest|, 1
  {
    assert ("*" + rest)[1..] == rest;
    if GlobPrefix("*" + rest, s) {
      var j :| 0 <= j <= |s| && Glob("*" + rest, s[..j]);
      var k :| 0 <= k <= j && '\n' !in s[..j][..k] && Glob(rest, s[..j][k..]);
      DotRunIsOneLine(s[..k]);
      assert s[..j][..k] == s[..k] && s[..j][k..] == s[k..][..j - k];
      assert GlobPrefix(rest, s[k..]);
      MatchIsGlobPrefix(rest, s[k..]);
    }
    if k :| 0 <= k <= |s| && Run('.', s[..k]) && MatchHere(LikeToRegex(rest), s[k..]) {
      MatchIsGlobPrefix(rest, s[k..]);
      DotRunIsOneLine(s[..k]);
      var j :| 0 <= j <= |s[k..]| && Glob(rest, s[k..][..j]);
      assert s[..k + j][..k] == s[..k] && s[..k + j][k..] == s[k..][..j];
      assert Glob("*" + rest, s[..k + j]);
    }
  }

  /** LIKE finds exactly the texts in which some stretch matches the glob. */
  lemma LikeIsUnanchoredGlob(pattern: string, s: string)
    requires Plain(pattern)
    ensures RegexSearch(LikeToRegex(pattern), s) <==> Like(pattern, s)
  {
    if k :| 0 <= k <= |s| && MatchHere(LikeToRegex(pattern), s[k..]) {
      MatchIsGlobPrefix(pattern, s[k..]);
      var j :| 0 <= j <= |s[k..]| && Glob(pattern, s[k..][..j]);
      assert s[k..][..j] == s[k..k + j];
    }
    if i, j :| 0 <= i <= j <= |s| && Glob(pattern, s[i..j]) {
      assert s[i..][..j - i] == s[i..j];
      MatchIsGlobPrefix(pattern, s[i..]);
    }
  }
}
