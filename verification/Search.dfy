/** Search is literal: the pattern built from a query matches exactly the texts that contain the query. */
module Search {

  const ESCAPE := '\\'

  predicate IsSpecial(c: char) {
    c == '\\' || c == '%' || c == '_'
  }

  /** Each special character is preceded by the escape. */
  function Escaped(q: string): string {
    if q == "" then ""
    else (if IsSpecial(q[0]) then [ESCAPE, q[0]] else [q[0]]) + Escaped(q[1..])
  }

  function EscapeLikePattern(q: string): string {
    "%" + Escaped(q) + "%"
  }

  /** SQL LIKE with backslash as its escape: `%` stands for any run of characters, `_` for any one, an escaped character
      for itself. A pattern must not end in its escape; such a pattern matches nothing here. */
  predicate Like(s: string, p: string)
    decreases |p|, |s|
  {
    if p == "" then s == ""
    else if p[0] == '%' then Like(s, p[1..]) || (s != "" && Like(s[1..], p))
    else if p[0] == '_' then s != "" && Like(s[1..], p[1..])
    else if p[0] == ESCAPE then |p| >= 2 && s != "" && s[0] == p[1] && Like(s[1..], p[2..])
    else s != "" && s[0] == p[0] && Like(s[1..], p[1..])
  }

  /** `q` occurs in `s` from position `i` on. */
  predicate OccursAt(q: string, s: string, i: nat) {
    i + |q| <= |s| && s[i..i + |q|] == q
  }

  ghost predicate Contains(s: string, q: string) {
    exists i: nat :: OccursAt(q, s, i)
  }

  lemma {:induction false} PercentMatchesAll(s: string)
    ensures Like(s, "%")
  {
    if s != "" {
      PercentMatchesAll(s[1..]);
    }
  }

  /** The escaped query, followed by a wildcard, matches exactly the texts that begin with the query. */
  lemma {:induction false} EscapedMatchesPrefix(s: string, q: string)
    ensures Like(s, Escaped(q) + "%") <==> q <= s
  {
    if q == "" {
      assert Escaped(q) + "%" == "%";
      PercentMatchesAll(s);
    } else {
      var head := if IsSpecial(q[0]) then [ESCAPE, q[0]] else [q[0]];
      assert Escaped(q) + "%" == head + (Escaped(q[1..]) + "%");
      OneMatched(s, q[0], Escaped(q[1..]) + "%");
      if s != "" {
        EscapedMatchesPrefix(s[1..], q[1..]);
        PrefixHead(q, s);
      }
    }
  }

  /** One character of the query, escaped where it must be, matches itself and nothing else. */
  lemma {:induction false} OneMatched(s: string, c: char, rest: string)
    ensures Like(s, (if IsSpecial(c) then [ESCAPE, c] else [c]) + rest) <==> s != "" && s[0] == c && Like(s[1..], rest)
  {
    var p := (if IsSpecial(c) then [ESCAPE, c] else [c]) + rest;
    if IsSpecial(c) {
      assert p[2..] == rest;
    } else {
      assert p[1..] == rest;
    }
  }

  lemma {:induction false} PrefixHead(q: string, s: string)
    requires q != "" && s != ""
    ensures q <= s <==> q[0] == s[0] && q[1..] <= s[1..]
  {
    assert q == [q[0]] + q[1..] && s == [s[0]] + s[1..];
  }

  lemma {:induction false} OccursInTail(q: string, s: string, i: nat)
    requires s != ""
    ensures OccursAt(q, s, i + 1) <==> OccursAt(q, s[1..], i)
  {
    if i + 1 + |q| <= |s| {
      assert s[i + 1..i + 1 + |q|] == s[1..][i..i + |q|];
    }
  }

  lemma {:induction false} ContainsSplit(s: string, q: string)
    ensures Contains(s, q) <==> q <= s || (s != "" && Contains(s[1..], q))
  {
    if Contains(s, q) {
      var i: nat :| OccursAt(q, s, i);
      if i > 0 {
        OccursInTail(q, s, i - 1);
      }
    }
    if q <= s {
      assert OccursAt(q, s, 0);
    }
    if s != "" && Contains(s[1..], q) {
      var i: nat :| OccursAt(q, s[1..], i);
      OccursInTail(q, s, i);
    }
  }

  /** The pattern built from `q` matches `s` if and only if `q` occurs in `s`, percent signs, underscores and backslashes
      included. */
  lemma {:induction false} SearchIsLiteral(s: string, q: string)
    ensures Like(s, EscapeLikePattern(q)) <==> Contains(s, q)
  {
    var p := EscapeLikePattern(q);
    assert p[1..] == Escaped(q) + "%";
    EscapedMatchesPrefix(s, q);
    ContainsSplit(s, q);
    if s != "" {
      SearchIsLiteral(s[1..], q);
    }
  }
}
