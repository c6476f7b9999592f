/** The search box: an escaped query inside a LIKE pattern means plain substring search. */
module Search {

  /** str.replace of one character. */
  function Replace(s: string, c: char, with: string): string {
    if s == [] then [] else (if s[0] == c then with else [s[0]]) + Replace(s[1..], c, with)
  }

  /** `_escape_like`: three replacements, one after the other. */
  function EscapeLike(q: string): string {
    Replace(Replace(Replace(q, '\\', "\\\\"), '%', "\\%"), '_', "\\_")
  }

  predicate Special(c: char) { c == '\\' || c == '%' || c == '_' }

  function EscapeChar(c: char): string { if Special(c) then ['\\', c] else [c] }

  function EscapeEach(q: string): string {
    if q == [] then [] else EscapeChar(q[0]) + EscapeEach(q[1..])
  }

  lemma {:induction false} ReplaceAppend(a: string, b: string, c: char, with: string)
    ensures Replace(a + b, c, with) == Replace(a, c, with) + Replace(b, c, with)
  {
    if a == [] {
      assert a + b == b;
    } else {
      ReplaceAppend(a[1..], b, c, with);
      assert (a + b)[0] == a[0] && (a + b)[1..] == a[1..] + b;
      Regroup(if a[0] == c then with else [a[0]], Replace(a[1..], c, with), Replace(b, c, with));
    }
  }

  lemma Regroup(a: string, b: string, c: string)
    ensures a + (b + c) == a + b + c
  {}

  lemma EscapeAppend(a: string, b: string)
    ensures EscapeLike(a + b) == EscapeLike(a) + EscapeLike(b)
  {
    hide Replace;
    var a1, b1 := Replace(a, '\\', "\\\\"), Replace(b, '\\', "\\\\");
    ReplaceAppend(a, b, '\\', "\\\\");
    ReplaceAppend(a1, b1, '%', "\\%");
    ReplaceAppend(Replace(a1, '%', "\\%"), Replace(b1, '%', "\\%"), '_', "\\_");
  }

  lemma ReplaceOne(d: char, c: char, with: string)
    ensures Replace([d], c, with) == if d == c then with else [d]
  {
    assert [d][1..] == [];
  }

  lemma ReplaceTwo(d: char, e: char, c: char, with: string)
    requires d != c && e != c
    ensures Replace([d, e], c, with) == [d, e]
  {
    assert [d, e] == [d] + [e];
    ReplaceAppend([d], [e], c, with);
    ReplaceOne(d, c, with);
    ReplaceOne(e, c, with);
  }

  /** The order of the replacements matters and is right: a backslash put in by one is not
      escaped again by another. */
  lemma EscapeOne(c: char)
    ensures EscapeLike([c]) == EscapeChar(c)
  {
    hide Replace;
    ReplaceOne(c, '\\', "\\\\");
    if c == '\\' {
      ReplaceTwo('\\', '\\', '%', "\\%");
      ReplaceTwo('\\', '\\', '_', "\\_");
    } else {
      ReplaceOne(c, '%', "\\%");
      if c == '%' {
        ReplaceTwo('\\', '%', '_', "\\_");
      } else {
        ReplaceOne(c, '_', "\\_");
      }
    }
  }

  /** Three passes equal one pass, character by character. */
  lemma {:induction false} EscapeIsPerCharacter(q: string)
    ensures EscapeLike(q) == EscapeEach(q)
  {
    hide EscapeChar;
    if q == [] {
    } else {
      EscapeIsPerCharacter(q[1..]);
      assert q == [q[0]] + q[1..];
      EscapeAppend([q[0]], q[1..]);
      EscapeOne(q[0]);
    }
  }

  // ---- LIKE ----

  /** SQLite folds ASCII letters only. */
  function Fold(c: char): char { if 'A' <= c <= 'Z' then (c as int + 32) as char else c }

  /** LIKE ... ESCAPE '\': % any run, _ any character, a backslash makes the next one literal. */
  predicate Like(p: string, t: string)
    decreases |p| + |t|
  {
    if p == [] then t == []
    else if p[0] == '\\' then |p| > 1 && t != [] && Fold(t[0]) == Fold(p[1]) && Like(p[2..], t[1..])
    else if p[0] == '%' then Like(p[1..], t) || (t != [] && Like(p, t[1..]))
    else t != [] && (p[0] == '_' || Fold(t[0]) == Fold(p[0])) && Like(p[1..], t[1..])
  }

  predicate SameFolded(a: string, b: string) {
    |a| == |b| && forall i | 0 <= i < |a| :: Fold(a[i]) == Fold(b[i])
  }

  lemma LiteralStep(c: char, rest: string, t: string)
    ensures Like(EscapeChar(c) + rest, t) <==> t != [] && Fold(t[0]) == Fold(c) && Like(rest, t[1..])
  {
    var p := EscapeChar(c) + rest;
    assert p[|EscapeChar(c)|..] == rest;
  }

  /** An escaped query matches itself and nothing else. */
  lemma {:induction false} LiteralRun(q: string, rest: string, t: string)
    ensures Like(EscapeEach(q) + rest, t) <==> |q| <= |t| && SameFolded(t[..|q|], q) && Like(rest, t[|q|..])
  {
    hide EscapeChar; hide Fold; hide Like;
    if q == [] {
      assert EscapeEach(q) + rest == rest && t[|q|..] == t;
    } else {
      assert EscapeEach(q) + rest == EscapeChar(q[0]) + (EscapeEach(q[1..]) + rest);
      LiteralStep(q[0], EscapeEach(q[1..]) + rest, t);
      if t != [] {
        LiteralRun(q[1..], rest, t[1..]);
        if |q| <= |t| {
          assert t[1..][..|q| - 1] == t[1..|q|] && t[1..][|q| - 1..] == t[|q|..];
          FoldedCons(t[..|q|], q);
          assert t[..|q|][1..] == t[1..|q|];
        }
      }
    }
  }

  lemma FoldedCons(a: string, b: string)
    requires |a| == |b| > 0
    ensures SameFolded(a, b) <==> Fold(a[0]) == Fold(b[0]) && SameFolded(a[1..], b[1..])
  {
    hide Fold;
    if Fold(a[0]) == Fold(b[0]) && SameFolded(a[1..], b[1..]) {
      forall i | 0 <= i < |a| ensures Fold(a[i]) == Fold(b[i]) {
        if i > 0 { assert a[i] == a[1..][i - 1] && b[i] == b[1..][i - 1]; }
      }
    }
  }

  lemma {:induction false} PercentMatchesAll(t: string)
    ensures Like("%", t)
  {
    assert "%"[1..] == [];
    if t != [] { PercentMatchesAll(t[1..]); }
  }

  lemma {:induction false} PercentSkips(p: string, t: string)
    ensures Like("%" + p, t) <==> exists i :: 0 <= i <= |t| && Like(p, t[i..])
  {
    assert ("%" + p)[1..] == p;
    if t == [] {
      assert t[0..] == t;
    } else {
      PercentSkips(p, t[1..]);
      assert t[0..] == t;
      if i :| 0 <= i <= |t[1..]| && Like(p, t[1..][i..]) { assert t[1..][i..] == t[i + 1..]; }
      if i :| 0 <= i <= |t| && Like(p, t[i..]) {
        if i > 0 { assert t[i..] == t[1..][i - 1..]; }
      }
    }
  }

  /** The same text up to the case of ASCII letters. */
  ghost predicate SameButCase(a: string, b: string) {
    |a| == |b| && forall i | 0 <= i < |a| :: EitherCase(a[i], b[i])
  }

  predicate EitherCase(c: char, d: char) {
    || c == d
    || ('A' <= c <= 'Z' && d as int == c as int + 32)
    || ('A' <= d <= 'Z' && c as int == d as int + 32)
  }

  lemma FoldedMeans(a: string, b: string)
    ensures SameFolded(a, b) <==> SameButCase(a, b)
  {
    assert forall c, d :: Fold(c) == Fold(d) <==> EitherCase(c, d);
  }

  ghost predicate Occurs(q: string, t: string) { exists i :: 0 <= i <= |t| && OccursAt(q, t, i) }

  ghost predicate OccursAt(q: string, t: string, i: nat) { i + |q| <= |t| && SameButCase(t[i..i + |q|], q) }

  /** The search pattern matches a text exactly when the query occurs in it up to ASCII case,
      whatever %, _ and backslashes the query contains. */
  lemma SearchMeansSubstring(q: string, t: string)
    ensures Like("%" + EscapeLike(q) + "%", t) <==> Occurs(q, t)
  {
    hide Like; hide EscapeLike; hide EscapeEach; hide SameFolded; hide SameButCase;
    EscapeIsPerCharacter(q);
    var p := EscapeEach(q) + "%";
    assert "%" + EscapeLike(q) + "%" == "%" + p;
    PercentSkips(p, t);
    forall i | 0 <= i <= |t| ensures Like(p, t[i..]) <==> OccursAt(q, t, i) {
      LiteralRun(q, "%", t[i..]);
      if i + |q| <= |t| {
        assert t[i..][..|q|] == t[i..i + |q|];
        FoldedMeans(t[i..i + |q|], q);
        PercentMatchesAll(t[i..][|q|..]);
      }
    }
  }
}
