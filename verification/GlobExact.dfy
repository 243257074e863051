/** Exactly which brace-free filters the greedy matcher decides as their language demands. */
module GlobExact {
  import opened Wrappers
  import opened Defs
  import opened Strings
  import opened Glob

  /** After a star: literal text, then question marks, then another star, and so on; the last thing is a star. */
  predicate TameStar(f: string)
    decreases |f|, 1
  {
    f == "" || TameTail(f[FirstSpecial(f)..])
  }

  predicate TameTail(g: string)
    decreases |g|, 0
  {
    g != "" && ((g[0] == '*' && TameStar(g[1..])) || (g[0] == '?' && TameTail(g[1..])))
  }

  /** No star at all, or everything after the first star as above. */
  predicate Tame(f: string) {
    var i := FirstSpecial(f);
    i == |f| || (f[i] == '*' && TameStar(f[i + 1..])) || (f[i] == '?' && Tame(f[i + 1..]))
  }

  // --------------------------------------------------------- tame is enough

  /** What follows a literal in a tame filter absorbs any text in front. */
  lemma {:induction false} TailAbsorbs(g: string, s: string, k: nat)
    requires TameTail(g) && k <= |s| && Accepts(g, s[k..])
    ensures Accepts(g, s)
  {
    if g[0] == '*' {
      assert g == "*" + g[1..];
      StarAbsorbs(g[1..], s, k);
    } else {
      assert g == "?" + g[1..];
      QuestionStep(g[1..], s[k..]);
      assert s[k..][1..] == s[1..][k..];
      TailAbsorbs(g[1..], s[1..], k);
      QuestionStep(g[1..], s);
    }
  }

  lemma {:induction false} FirstExists(s: string, text: string, k: nat) returns (p: nat)
    requires OccursAt(s, text, k)
    ensures p <= k && IsFirst(s, text, Some(p))
    decreases k
  {
    if j :| 0 <= j < k && OccursAt(s, text, j) {
      p := FirstExists(s, text, j);
    } else {
      p := k;
    }
  }

  /** At a token the greedy match does what the language says of that token. */
  lemma GreedyToken(g: string, t: string)
    requires g != "" && (g[0] == '*' || g[0] == '?')
    ensures g[0] == '*' ==> (Greedy(false, g, t) <==> Greedy(true, g[1..], t))
    ensures g[0] == '?' ==> (Greedy(false, g, t) <==> t != "" && Greedy(false, g[1..], t[1..]))
  {
    hide Greedy, Place;
    assert g[..0] == "";
    FirstSpecialIs(g, 0);
    PlaceEmpty(false, t);
    GreedyStep(false, g, t, "");
    assert t[0 + 0..] == t;
  }

  /** The literal part of a turn, for a filter with a token. */
  lemma GreedyLiteral(star: bool, f: string, s: string)
    requires BraceFree(f) && FirstSpecial(f) < |f|
    ensures var i := FirstSpecial(f);
      var p := Place(star, f[..i], s);
      Greedy(star, f, s) <==> p.Some? && p.value + i <= |s| && Greedy(false, f[i..], s[p.value + i..])
  {
    hide Greedy, Place, FirstSpecial;
    var i := FirstSpecial(f);
    GreedyStep(star, f, s, f[..i]);
    var p := Place(star, f[..i], s);
    assert f[i] in f && f[i..][0] == f[i] && f[i..][1..] == f[i + 1..];
    if p.Some? && p.value + i <= |s| {
      GreedyToken(f[i..], s[p.value + i..]);
    }
  }

  lemma BraceFreeSlice(f: string, i: nat)
    requires BraceFree(f) && i <= |f|
    ensures BraceFree(f[i..])
  {}

  lemma {:induction false} TameTailExact(g: string, s: string)
    requires BraceFree(g) && TameTail(g)
    ensures Greedy(false, g, s) <==> Accepts(g, s)
    decreases |g|, 0
  {
    hide Greedy, Accepts;
    GreedyToken(g, s);
    BraceFreeSlice(g, 1);
    if g[0] == '*' {
      assert g == "*" + g[1..];
      TameStarExact(g[1..], s);
    } else {
      assert g == "?" + g[1..];
      QuestionStep(g[1..], s);
      if s != "" { TameTailExact(g[1..], s[1..]); }
    }
  }

  lemma {:induction false} TameStarExact(f: string, s: string)
    requires BraceFree(f) && TameStar(f)
    ensures Greedy(true, f, s) <==> Accepts("*" + f, s)
    decreases |f|, 1
  {
    hide Greedy, Accepts, Place, IsFirst;
    if f == "" {
      GreedyEnd(true, s);
    } else {
      var i := FirstSpecial(f);
      var text, g := f[..i], f[i..];
      BraceFreeSlice(f, i);
      GreedyLiteral(true, f, s);
      assert f == text + g;
      if Greedy(true, f, s) {
        var p := Place(true, text, s).value;
        TameTailExact(g, s[p + i..]);
        PlaceOccurs(true, text, s);
        LiteralStep(true, text, g, s, p);
      }
      if Accepts("*" + f, s) {
        var k := StarAccepts(f, s);
        AcceptsLiteral(text, g, s[k..]);
        assert s[k..k + i] == s[k..][..i] && s[k..][i..] == s[k + i..];
        var p := LeftmostPlace(text, s, k);
        assert s[p + i..][k - p..] == s[k + i..];
        TailAbsorbs(g, s[p + i..], k - p);
        TameTailExact(g, s[p + i..]);
      }
    }
  }

  lemma LeftmostPlace(text: string, s: string, k: nat) returns (p: nat)
    requires OccursAt(s, text, k)
    ensures p <= k && Place(true, text, s) == Some(p) && p + |text| <= |s|
  {
    if text == "" {
      p := 0;
    } else {
      p := FirstExists(s, text, k);
      PlaceIs(true, text, s, Some(p));
    }
  }

  lemma {:induction false} TameExact(f: string, s: string)
    requires BraceFree(f) && Tame(f)
    ensures Greedy(false, f, s) <==> Accepts(f, s)
    decreases |f|, 1
  {
    hide Greedy, Accepts, Place;
    if f == "" {
      GreedyEnd(false, s);
    } else {
      var i := FirstSpecial(f);
      var text, g := f[..i], f[i..];
      assert f == text + g;
      AcceptsLiteral(text, g, s);
      PlacePrefix(text, s);
      if i == |f| {
        GreedyStep(false, f, s, text);
        if text <= s { GreedyEnd(false, s[|text|..]); }
      } else {
        GreedyLiteral(false, f, s);
        if text <= s { TameToken(f, s[i..]); }
      }
    }
  }

  lemma PlacePrefix(text: string, s: string)
    ensures Place(false, text, s) == if text <= s then Some(0) else None
  {}

  lemma {:induction false} TameToken(f: string, t: string)
    requires BraceFree(f) && Tame(f) && FirstSpecial(f) < |f|
    ensures Greedy(false, f[FirstSpecial(f)..], t) <==> Accepts(f[FirstSpecial(f)..], t)
    decreases |f|, 0
  {
    hide Greedy, Accepts;
    var i := FirstSpecial(f);
    var g, rest := f[i..], f[i + 1..];
    assert g == [f[i]] + rest && g[1..] == rest;
    BraceFreeSlice(f, i + 1);
    GreedyToken(g, t);
    if f[i] == '*' {
      TameStarExact(rest, t);
    } else {
      QuestionStep(rest, t);
      if t != "" { TameExact(rest, t[1..]); }
    }
  }

  // ------------------------------------------------------ and tame is needed

  /** A shortest name of a brace-free filter. */
  function Sample(f: string): string {
    if f == "" then ""
    else (if f[0] == '*' then "" else if f[0] == '?' then "a" else [f[0]]) + Sample(f[1..])
  }

  /** A character that the filter does not start with. */
  function OtherThan(f: string): char {
    if f != "" && f[0] == 'a' then 'b' else 'a'
  }

  lemma {:induction false} SampleAccepted(f: string)
    requires BraceFree(f)
    ensures Accepts(f, Sample(f))
  {
    if f != "" {
      var t := Sample(f[1..]);
      BraceFreeSlice(f, 1);
      SampleAccepted(f[1..]);
      assert f[0] in f;
      if f[0] == '*' {
        assert t[0..] == t && "" + t == t;
      } else {
        assert Sample(f)[1..] == t;
      }
    }
  }

  /** A literal that does not start the name is missed at the current position. */
  lemma LiteralMissed(h: string, d: char, y: string)
    requires h != "" && !Special(h[0]) && d != h[0]
    ensures !Greedy(false, h, [d] + y)
  {
    hide Greedy;
    var i := FirstSpecial(h);
    assert i > 0 && h[..i][0] == h[0];
    assert !(h[..i] <= [d] + y) by {
      assert ([d] + y)[0] == d;
    }
    PlacePrefix(h[..i], [d] + y);
    GreedyStep(false, h, [d] + y, h[..i]);
  }

  /** A name on which the rest of an untame filter goes wrong: either one of its language, or one ending in `y`. */
  lemma {:induction false} BadTail(g: string, y: string) returns (t: string, inside: bool, n: nat)
    requires BraceFree(g) && !TameTail(g)
    ensures t != "" || g != ""
    ensures !Greedy(false, g, t)
    ensures inside ==> Accepts(g, t)
    ensures !inside ==> n <= |t| && t[n..] == y
    decreases |g|, 0
  {
    hide Greedy, Accepts;
    var d := OtherThan(g);
    t, inside, n := [d] + y, false, 1;
    assert ([d] + y)[1..] == y;
    if g == "" {
      GreedyEnd(false, t);
    } else if g[0] == '*' {
      BraceFreeSlice(g, 1);
      t := BadStar(g[1..]);
      inside := true;
      GreedyToken(g, t);
      assert g == "*" + g[1..];
    } else if g[0] == '?' {
      BraceFreeSlice(g, 1);
      var u;
      u, inside, n := BadTail(g[1..], y);
      t := [d] + u;
      assert t[1..] == u;
      GreedyToken(g, t);
      assert g == "?" + g[1..];
      QuestionStep(g[1..], t);
      if !inside {
        n := n + 1;
        assert t[n..] == u[n - 1..];
      }
    } else {
      assert g[0] in g;
      LiteralMissed(g, d, y);
    }
  }

  /** Behind the leftmost occurrence of the literal the greedy match has only the rest. */
  lemma StarMisses(f: string, t: string)
    requires f != "" && BraceFree(f) && !Greedy(false, f[FirstSpecial(f)..], t) && (t != "" || FirstSpecial(f) < |f|)
    ensures !Greedy(true, f, f[..FirstSpecial(f)] + t)
  {
    hide Greedy, Place;
    var i := FirstSpecial(f);
    var text := f[..i];
    var s := text + t;
    assert s[0..0 + i] == text && s[i..] == t;
    var p := LeftmostPlace(text, s, 0);
    if i == |f| {
      GreedyStep(true, f, s, text);
    } else {
      GreedyLiteral(true, f, s);
    }
  }

  /** A name in the language of a star and an untame filter that the greedy match rejects. */
  lemma {:induction false} BadStar(f: string) returns (s: string)
    requires BraceFree(f) && !TameStar(f)
    ensures Accepts("*" + f, s) && !Greedy(true, f, s)
    decreases |f|, 1
  {
    hide Greedy, Accepts, Place, FirstSpecial;
    var i := FirstSpecial(f);
    var text, g := f[..i], f[i..];
    assert f == text + g;
    BraceFreeSlice(f, i);
    var t, inside, n := BadTail(g, Sample(f));
    s := text + t;
    assert s[i..] == t && s[0..] == s;
    StarMisses(f, t);
    if inside {
      AcceptsLiteral(text, g, s);
      AcceptsStar(f, s, 0);
    } else {
      SampleAccepted(f);
      assert s[i + n..] == t[n..];
      AcceptsStar(f, s, i + n);
    }
  }

  lemma {:induction false} BadToken(f: string) returns (t: string)
    requires BraceFree(f) && !Tame(f)
    ensures var g := f[FirstSpecial(f)..]; Accepts(g, t) && !Greedy(false, g, t)
    decreases |f|, 0
  {
    hide Greedy, Accepts, Place;
    var i := FirstSpecial(f);
    var g, rest := f[i..], f[i + 1..];
    assert g == [f[i]] + rest && g[1..] == rest && f[i] in f;
    BraceFreeSlice(f, i + 1);
    if f[i] == '*' {
      t := BadStar(rest);
    } else {
      var u := BadName(rest);
      t := "a" + u;
      assert t[1..] == u;
      QuestionStep(rest, t);
    }
    GreedyToken(g, t);
  }

  lemma {:induction false} BadName(f: string) returns (s: string)
    requires BraceFree(f) && !Tame(f)
    ensures Accepts(f, s) && !Greedy(false, f, s)
    decreases |f|, 1
  {
    var t := BadToken(f);
    hide Greedy, Accepts, Place;
    var i := FirstSpecial(f);
    var text, g := f[..i], f[i..];
    assert f == text + g && i < |f|;
    hide FirstSpecial, Tame;
    s := text + t;
    assert s[i..] == t && text <= s;
    AcceptsLiteral(text, g, s);
    PlacePrefix(text, s);
    GreedyLiteral(false, f, s);
  }

  /** The matcher decides the language of a brace-free filter for every name exactly when the filter is tame and its
      turns fit what is left of the budget. */
  lemma ExactIffTame(f: string, used: nat)
    requires BraceFree(f)
    ensures (Tame(f) && used + Turns(f) < MATCHITERS_MAX) <==> forall s :: Match(false, f, s, used).ok <==> Accepts(f, s)
  {
    hide Match, Greedy, Accepts, Tame, Turns, Sample;
    GreedyIffTame(f);
    forall s ensures Match(false, f, s, used).ok <==> used + Turns(f) < MATCHITERS_MAX && Greedy(false, f, s) {
      MatchBraceFree(false, f, s, used);
    }
    if used + Turns(f) < MATCHITERS_MAX {
      assert forall s :: Match(false, f, s, used).ok <==> Greedy(false, f, s);
    } else {
      SampleAccepted(f);
      var sample := Sample(f);
      assert Accepts(f, sample) && !Match(false, f, sample, used).ok;
    }
  }

  /** Budget aside, the greedy match decides the language exactly when the filter is tame. */
  lemma GreedyIffTame(f: string)
    requires BraceFree(f)
    ensures Tame(f) <==> forall s :: Greedy(false, f, s) <==> Accepts(f, s)
  {
    hide Greedy, Accepts, Tame;
    if Tame(f) {
      forall s ensures Greedy(false, f, s) <==> Accepts(f, s) { TameExact(f, s); }
    } else {
      var s := BadName(f);
    }
  }

  function Stars(n: nat): string {
    if n == 0 then "" else "*" + Stars(n - 1)
  }

  lemma {:induction false} StarsFacts(n: nat, s: string)
    ensures Turns(Stars(n)) == |Stars(n)| == n && BraceFree(Stars(n)) && TameStar(Stars(n))
    ensures n > 0 ==> Tame(Stars(n)) && Accepts(Stars(n), s)
  {
    if n > 0 {
      StarsFacts(n - 1, "");
      var f, rest := Stars(n), Stars(n - 1);
      assert f[1..] == rest && f[0] == '*';
      FirstSpecialIs(f, 0);
      assert s[|s|..] == "" && f[0..] == f;
      AcceptsStar(rest, s, |s|);
    }
  }

  /** The budget matters: a thousand stars are tame and stand for every name, and match none. */
  lemma ThousandStars(s: string)
    ensures Tame(Stars(MATCHITERS_MAX)) && BraceFree(Stars(MATCHITERS_MAX)) && |Stars(MATCHITERS_MAX)| == 1000
    ensures Accepts(Stars(MATCHITERS_MAX), s) && !Match(false, Stars(MATCHITERS_MAX), s, 0).ok
  {
    hide Match, Stars, Turns, Tame, Accepts, Greedy;
    StarsFacts(MATCHITERS_MAX, s);
    MatchBraceFree(false, Stars(MATCHITERS_MAX), s, 0);
  }

  /** The smallest example: "*a" stands for "aba", but the leftmost a leaves text behind. */
  lemma StarLiteralIncomplete()
    ensures Accepts("*a", "aba") && !Greedy(false, "*a", "aba") && !Tame("*a")
  {
    hide Greedy, Place;
    assert "*a"[1..] == "a" && "aba"[2..] == "a";
    assert "a" + "" == "a" && "a"[1..] == "";
    AcceptsStar("a", "aba", 2);
    assert "*a" == "*" + "a";
    assert !Special('a');
    FirstSpecialIs("*a", 0);
    FirstSpecialIs("a", 1);
    GreedyToken("*a", "aba");
    assert "a"[..1] == "a" && "aba"[0..0 + 1] == "a" && "aba"[1..] == "ba";
    var p := LeftmostPlace("a", "aba", 0);
    GreedyStep(true, "a", "aba", "a");
  }
}
