/** Action filters: `*` is the only wildcard of the public API.  A filter with a `*`
    becomes an SQL LIKE pattern after successive escaping passes; any other filter
    becomes an equality.  PostgreSQL and SQL Server read LIKE patterns differently. */
module Wildcard {

  /** The meaning the API promises: `*` stands for any text, all else for itself. */
  predicate Glob(p: string, s: string)
    decreases |p| + |s|
  {
    if p == "" then s == ""
    else if p[0] == '*' then Glob(p[1..], s) || (s != "" && Glob(p, s[1..]))
    else s != "" && s[0] == p[0] && Glob(p[1..], s[1..])
  }

  datatype LikeResult = DanglingEscape | Answer(holds: bool)

  function Or(a: LikeResult, b: LikeResult): LikeResult {
    if a.DanglingEscape? || b.DanglingEscape? then DanglingEscape else Answer(a.holds || b.holds)
  }

  function And(first: bool, rest: LikeResult): LikeResult {
    if rest.DanglingEscape? then DanglingEscape else Answer(first && rest.holds)
  }

  /** PostgreSQL LIKE with ESCAPE '\': `%`, `_` and escaped literals.  A pattern that
      ends in the escape character is an error, whatever the text. */
  function PgLike(p: string, s: string): LikeResult
    decreases |p|, |s|
  {
    if p == "" then Answer(s == "")
    else if p[0] == '\\' then
      if |p| == 1 then DanglingEscape
      else And(s != "" && s[0] == p[1], PgLike(p[2..], if s == "" then "" else s[1..]))
    else if p[0] == '%' then
      if s == "" then PgLike(p[1..], s) else Or(PgLike(p[1..], s), PgLike(p, s[1..]))
    else And(s != "" && (p[0] == '_' || s[0] == p[0]), PgLike(p[1..], if s == "" then "" else s[1..]))
  }

  /** Index of the `]` that closes a character class, or |p| when it stays open. */
  function ClassEnd(p: string, i: nat): (r: nat)
    requires i <= |p|
    ensures i <= r <= |p|
    decreases |p| - i
  {
    if i == |p| || p[i] == ']' then i else ClassEnd(p, i + 1)
  }

  predicate InClass(cls: string, c: char)
    decreases |cls|
  {
    if cls == "" then false
    else if |cls| >= 3 && cls[1] == '-' then cls[0] <= c <= cls[2] || InClass(cls[3..], c)
    else cls[0] == c || InClass(cls[1..], c)
  }

  /** SQL Server LIKE adds character classes `[a-z]` and `[^a-z]`; an unclosed class
      matches nothing. */
  function MsLike(p: string, s: string): LikeResult
    decreases |p|, |s|
  {
    if p == "" then Answer(s == "")
    else if p[0] == '\\' then
      if |p| == 1 then DanglingEscape
      else And(s != "" && s[0] == p[1], MsLike(p[2..], if s == "" then "" else s[1..]))
    else if p[0] == '%' then
      if s == "" then MsLike(p[1..], s) else Or(MsLike(p[1..], s), MsLike(p, s[1..]))
    else if p[0] == '[' then
      var close := ClassEnd(p, 1);
      if close == |p| then Answer(false)
      else
        var cls := p[1..close];
        var inside := s != "" && (if cls != "" && cls[0] == '^' then !InClass(cls[1..], s[0]) else InClass(cls, s[0]));
        And(inside, MsLike(p[close + 1..], if s == "" then "" else s[1..]))
    else And(s != "" && (p[0] == '_' || s[0] == p[0]), MsLike(p[1..], if s == "" then "" else s[1..]))
  }

  /** `value.replace(/c/g, out)` */
  function Replace(v: string, c: char, out: string): string {
    if v == "" then "" else (if v[0] == c then out else [v[0]]) + Replace(v[1..], c, out)
  }

  function EscapeLikePattern(v: string): string {
    Replace(Replace(Replace(v, '\\', "\\\\"), '%', "\\%"), '_', "\\_")
  }

  function BracketCode(c: char): string {
    if c == '[' || c == ']' then ['\\', c] else [c]
  }

  /** `value.replace(/[[\]]/g, '\\$&')` */
  function EscapeBrackets(v: string): string {
    if v == "" then ""
    else BracketCode(v[0]) + EscapeBrackets(v[1..])
  }

  function PgPattern(action: string): string {
    Replace(EscapeLikePattern(action), '*', "%")
  }

  function MsPattern(action: string): string {
    Replace(EscapeBrackets(EscapeLikePattern(action)), '*', "%")
  }

  /** The predicate each provider evaluates for a non-empty action filter. */
  function PgAction(filter: string, action: string): LikeResult {
    if '*' in filter then PgLike(PgPattern(filter), action) else Answer(action == filter)
  }

  function MsAction(filter: string, action: string): LikeResult {
    if '*' in filter then MsLike(MsPattern(filter), action) else Answer(action == filter)
  }

  // ----- what the passes do to one character -----

  function PgCode(c: char): string {
    if c == '*' then "%" else if c in "\\%_" then ['\\', c] else [c]
  }

  function MsCode(c: char): string {
    if c in "[]" then ['\\', c] else PgCode(c)
  }

  lemma Assoc(a: string, b: string, c: string)
    ensures (a + b) + c == a + (b + c)
  {
  }

  lemma {:induction false} ReplaceConcat(a: string, b: string, c: char, out: string)
    ensures Replace(a + b, c, out) == Replace(a, c, out) + Replace(b, c, out)
  {
    if a == "" {
      assert a + b == b;
    } else {
      ReplaceConcat(a[1..], b, c, out);
      assert (a + b)[1..] == a[1..] + b;
      Assoc(if a[0] == c then out else [a[0]], Replace(a[1..], c, out), Replace(b, c, out));
    }
  }

  lemma {:induction false} EscapeBracketsConcat(a: string, b: string)
    ensures EscapeBrackets(a + b) == EscapeBrackets(a) + EscapeBrackets(b)
  {
    if a == "" {
      assert a + b == b;
    } else {
      EscapeBracketsConcat(a[1..], b);
      assert (a + b)[1..] == a[1..] + b;
      Assoc(BracketCode(a[0]), EscapeBrackets(a[1..]), EscapeBrackets(b));
    }
  }

  lemma ReplaceShort(v: string, c: char, out: string)
    requires |v| <= 2
    ensures |v| == 1 ==> Replace(v, c, out) == if v[0] == c then out else v
    ensures |v| == 2 ==> Replace(v, c, out) == Replace([v[0]], c, out) + Replace([v[1]], c, out)
  {
    if |v| == 2 {
      assert v == [v[0]] + [v[1]];
      ReplaceConcat([v[0]], [v[1]], c, out);
    }
  }

  /** The passes never touch each other's output: together they rewrite each character alone. */
  lemma EscapeFirst(p: string)
    requires p != ""
    ensures EscapeLikePattern(p) == (if p[0] in "\\%_" then ['\\', p[0]] else [p[0]]) + EscapeLikePattern(p[1..])
  {
    var c, t := p[0], p[1..];
    var one := if c == '\\' then "\\\\" else [c];
    var two := if c == '\\' then "\\\\" else if c == '%' then "\\%" else [c];
    assert Replace(p, '\\', "\\\\") == one + Replace(t, '\\', "\\\\");
    ReplaceConcat(one, Replace(t, '\\', "\\\\"), '%', "\\%");
    ReplaceShort(one, '%', "\\%");
    assert Replace(one, '%', "\\%") == two;
    ReplaceConcat(two, Replace(Replace(t, '\\', "\\\\"), '%', "\\%"), '_', "\\_");
    ReplaceShort(two, '_', "\\_");
  }

  lemma PgPatternFirst(p: string)
    requires p != ""
    ensures PgPattern(p) == PgCode(p[0]) + PgPattern(p[1..])
  {
    EscapeFirst(p);
    var head := if p[0] in "\\%_" then ['\\', p[0]] else [p[0]];
    ReplaceConcat(head, EscapeLikePattern(p[1..]), '*', "%");
    ReplaceShort(head, '*', "%");
  }

  lemma BracketsShort(c: char)
    ensures EscapeBrackets([c]) == BracketCode(c)
    ensures EscapeBrackets(['\\', c]) == ['\\'] + BracketCode(c)
  {
    assert [c][1..] == "" && ['\\', c][1..] == [c];
  }

  lemma MsPatternFirst(p: string)
    requires p != ""
    ensures MsPattern(p) == MsCode(p[0]) + MsPattern(p[1..])
  {
    EscapeFirst(p);
    var c := p[0];
    var head := if c in "\\%_" then ['\\', c] else [c];
    var tail := EscapeLikePattern(p[1..]);
    EscapeBracketsConcat(head, tail);
    BracketsShort(c);
    var bracketed := if c in "[]" then ['\\', c] else head;
    assert EscapeBrackets(head) == bracketed;
    ReplaceConcat(bracketed, EscapeBrackets(tail), '*', "%");
    ReplaceShort(bracketed, '*', "%");
  }

  // ----- main results -----

  /** PostgreSQL: the translated pattern never errs and holds exactly when the glob does. */
  lemma {:induction false} PgLikeIsGlob(p: string, s: string)
    ensures PgLike(PgPattern(p), s) == Answer(Glob(p, s))
    decreases |p|, |s|
  {
    if p != "" {
      var q, rest := PgPattern(p), PgPattern(p[1..]);
      PgPatternFirst(p);
      var s' := if s == "" then "" else s[1..];
      if p[0] == '*' {
        assert q[0] == '%' && q[1..] == rest;
        PgLikeIsGlob(p[1..], s);
        if s != "" { PgLikeIsGlob(p, s'); }
      } else {
        PgLikeIsGlob(p[1..], s');
        if p[0] in "\\%_" { assert q[1] == p[0] && q[2..] == rest; } else { assert q[1..] == rest; }
      }
    }
  }

  /** SQL Server: brackets are literal too, so the two dialects agree. */
  lemma {:induction false} MsLikeIsGlob(p: string, s: string)
    ensures MsLike(MsPattern(p), s) == Answer(Glob(p, s))
    decreases |p|, |s|
  {
    if p != "" {
      var q, rest := MsPattern(p), MsPattern(p[1..]);
      MsPatternFirst(p);
      var s' := if s == "" then "" else s[1..];
      if p[0] == '*' {
        assert q[0] == '%' && q[1..] == rest;
        MsLikeIsGlob(p[1..], s);
        if s != "" { MsLikeIsGlob(p, s'); }
      } else {
        MsLikeIsGlob(p[1..], s');
        if p[0] in "\\%_[]" { assert q[1] == p[0] && q[2..] == rest; } else { assert q[1..] == rest; }
      }
    }
  }

  lemma {:induction false} GlobWithoutWildcard(p: string, s: string)
    requires '*' !in p
    ensures Glob(p, s) <==> p == s
  {
    if p != "" && s != "" {
      GlobWithoutWildcard(p[1..], s[1..]);
      assert p == [p[0]] + p[1..] && s == [s[0]] + s[1..];
    }
  }

  /** Whichever predicate is chosen, both providers accept exactly the actions that
      match the filter, and neither ever raises a dangling escape. */
  lemma ActionFilterMeaning(filter: string, action: string)
    ensures PgAction(filter, action) == MsAction(filter, action) == Answer(Glob(filter, action))
  {
    if '*' in filter {
      PgLikeIsGlob(filter, action);
      MsLikeIsGlob(filter, action);
    } else {
      GlobWithoutWildcard(filter, action);
    }
  }
}
