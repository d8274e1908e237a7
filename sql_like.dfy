/** SQL's LIKE operator, which the list search and the global search hand their
    `"%" . term . "%"` patterns to: `%` matches any run of characters, `_` any one
    character, every other character itself. */
module SqlLike {

  function Wrapped(term: string): string {
    "%" + term + "%"
  }

  predicate LikeMatch(pattern: string, s: string)
    decreases |pattern| + |s|
  {
    if pattern == [] then s == []
    else if pattern[0] == '%' then LikeMatch(pattern[1..], s) || (s != [] && LikeMatch(pattern, s[1..]))
    else if pattern[0] == '_' then s != [] && LikeMatch(pattern[1..], s[1..])
    else s != [] && s[0] == pattern[0] && LikeMatch(pattern[1..], s[1..])
  }

  /** `t` occurs in `s` as a contiguous piece. */
  ghost predicate Contains(s: string, t: string) {
    exists i :: OccursAt(s, t, i)
  }

  predicate OccursAt(s: string, t: string, i: int) {
    0 <= i <= |s| - |t| && s[i..i + |t|] == t
  }

  /** A term without LIKE's wildcard characters. */
  predicate Literal(t: string) {
    forall i :: 0 <= i < |t| ==> t[i] != '%' && t[i] != '_'
  }

  lemma {:induction false} PercentMatchesAll(s: string)
    ensures LikeMatch("%", s)
  {
    if s != [] {
      PercentMatchesAll(s[1..]);
    }
  }

  /** A pattern followed by `%` matches the pattern's own text followed by anything. */
  lemma {:induction false} PrefixMatches(t: string, u: string)
    ensures LikeMatch(t + "%", t + u)
    decreases |t|
  {
    if t == [] {
      assert t + "%" == "%" && t + u == u;
      PercentMatchesAll(u);
    } else {
      var p, s := t + "%", t + u;
      assert p[1..] == t[1..] + "%";
      assert s[1..] == t[1..] + u;
      PrefixMatches(t[1..], u);
      if t[0] == '%' {
        // skip the text's own '%' with the pattern's '%', then let the '%' match nothing
        assert LikeMatch(p[1..], s[1..]);
        assert LikeMatch(p, s[1..]);
      }
    }
  }

  /** A leading `%` may skip any prefix of the text. */
  lemma {:induction false} SkipPrefix(q: string, v: string, w: string)
    requires LikeMatch(q, w)
    ensures LikeMatch("%" + q, v + w)
    decreases |v|
  {
    var p := "%" + q;
    assert p[1..] == q;
    if v == [] {
      assert v + w == w;
    } else {
      SkipPrefix(q, v[1..], w);
      assert (v + w)[1..] == v[1..] + w;
    }
  }

  /** Every text that contains the term matches `%term%`, wildcards in the term or not. */
  lemma ContainsMatchesWrapped(s: string, t: string)
    requires Contains(s, t)
    ensures LikeMatch(Wrapped(t), s)
  {
    var i :| OccursAt(s, t, i);
    var u := s[i + |t|..];
    PrefixMatches(t, u);
    assert s[i..] == t + u;
    SkipPrefix(t + "%", s[..i], s[i..]);
    assert s[..i] + s[i..] == s;
    assert Wrapped(t) == "%" + (t + "%");
  }

  /** A literal term followed by `%` matches only texts that start with the term. */
  lemma {:induction false} LiteralPrefix(t: string, s: string)
    requires Literal(t) && LikeMatch(t + "%", s)
    ensures |t| <= |s| && s[..|t|] == t
    decreases |t|
  {
    if t != [] {
      var p := t + "%";
      assert p[0] == t[0];
      assert p[1..] == t[1..] + "%";
      assert Literal(t[1..]) by {
        forall k | 0 <= k < |t[1..]| ensures t[1..][k] != '%' && t[1..][k] != '_' {
          assert t[1..][k] == t[k + 1];
        }
      }
      assert t[0] != '%' && t[0] != '_';
      assert s != [] && s[0] == t[0] && LikeMatch(p[1..], s[1..]);
      LiteralPrefix(t[1..], s[1..]);
      assert s[..|t|] == [s[0]] + s[1..][..|t| - 1];
      assert t == [t[0]] + t[1..];
    }
  }

  lemma {:induction false} WrappedLiteralContained(s: string, t: string)
    requires Literal(t) && LikeMatch("%" + (t + "%"), s)
    ensures Contains(s, t)
    decreases |s|
  {
    var p := "%" + (t + "%");
    assert p[1..] == t + "%";
    if LikeMatch(t + "%", s) {
      LiteralPrefix(t, s);
      assert OccursAt(s, t, 0);
    } else {
      WrappedLiteralContained(s[1..], t);
      var i :| OccursAt(s[1..], t, i);
      assert s[i + 1..i + 1 + |t|] == s[1..][i..i + |t|];
      assert OccursAt(s, t, i + 1);
    }
  }

  /** For a term without wildcards, `%term%` matches exactly the texts containing the term. */
  lemma WrappedLiteralIsContains(s: string, t: string)
    requires Literal(t)
    ensures LikeMatch(Wrapped(t), s) <==> Contains(s, t)
  {
    assert Wrapped(t) == "%" + (t + "%");
    if LikeMatch(Wrapped(t), s) {
      WrappedLiteralContained(s, t);
    }
    if Contains(s, t) {
      ContainsMatchesWrapped(s, t);
    }
  }
}
