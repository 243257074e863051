/** The file name matcher of directory listings. */
module Glob {
  import opened Wrappers
  import opened Defs
  import opened Strings

  // ------------------------------------------------- the language of a filter

  predicate Special(c: char) { c == '*' || c == '?' || c == '{' }

  /** The alternatives of a brace list. */
  function Alternatives(list: string): (alts: seq<string>)
    ensures forall a :: a in alts ==> |a| <= |list|
  {
    var i := IndexOf(list, ',');
    if i == |list| then [list] else [list[..i]] + Alternatives(list[i + 1..])
  }

  /** A filter whose first character opens a brace that is closed later. */
  predicate Closed(f: string) {
    f != "" && f[0] == '{' && IndexOf(f[1..], '}') < |f| - 1
  }

  function BraceList(f: string): (list: string)
    requires Closed(f)
    ensures |list| + 2 <= |f|
  {
    f[1..][..IndexOf(f[1..], '}')]
  }

  function BraceRest(f: string): (rest: string)
    requires Closed(f)
    ensures |rest| + |BraceList(f)| + 2 == |f|
  {
    f[1..][IndexOf(f[1..], '}') + 1..]
  }

  /** What a filter stands for: '*' any text, '?' one character, braces a choice between texts that are then read as
      filters together with what follows, an unclosed '{' and anything else itself. */
  ghost predicate Accepts(f: string, s: string)
    decreases |f|
  {
    if f == "" then s == ""
    else if f[0] == '*' then exists k :: 0 <= k <= |s| && Accepts(f[1..], s[k..])
    else if f[0] == '?' then s != "" && Accepts(f[1..], s[1..])
    else if Closed(f) then exists a :: a in Alternatives(BraceList(f)) && Accepts(a + BraceRest(f), s)
    else s != "" && s[0] == f[0] && Accepts(f[1..], s[1..])
  }

  /** Resuming after a star, or at the current position. */
  ghost predicate Resumes(star: bool, f: string, s: string) {
    if star then Accepts("*" + f, s) else Accepts(f, s)
  }

  predicate Plain(text: string) { forall c :: c in text ==> !Special(c) }

  // ------------------------------------------------------- how it is matched

  lemma {:induction false} AcceptsLiteral(text: string, f: string, s: string)
    requires Plain(text)
    ensures Accepts(text + f, s) <==> text <= s && Accepts(f, s[|text|..])
  {
    if text == "" {
      assert text + f == f && s[0..] == s;
    } else {
      assert (text + f)[1..] == text[1..] + f && (text + f)[0] == text[0] && text[0] in text;
      if s != "" && s[0] == text[0] {
        AcceptsLiteral(text[1..], f, s[1..]);
        assert text[1..] <= s[1..] <==> text <= s;
        if text <= s { assert s[1..][|text| - 1..] == s[|text|..]; }
      }
    }
  }

  lemma AcceptsStar(f: string, s: string, k: nat)
    requires k <= |s| && Accepts(f, s[k..])
    ensures Accepts("*" + f, s)
  {
    assert ("*" + f)[1..] == f;
  }

  lemma StarAccepts(f: string, s: string) returns (k: nat)
    requires Accepts("*" + f, s)
    ensures k <= |s| && Accepts(f, s[k..])
  {
    assert ("*" + f)[1..] == f;
    k :| 0 <= k <= |s| && Accepts(f, s[k..]);
  }

  /** A leading star absorbs any text in front. */
  lemma StarAbsorbs(f: string, s: string, k: nat)
    requires k <= |s| && Accepts("*" + f, s[k..])
    ensures Accepts("*" + f, s)
  {
    hide Accepts;
    var j := StarAccepts(f, s[k..]);
    assert s[k..][j..] == s[k + j..];
    AcceptsStar(f, s, k + j);
  }

  /** Matching a literal at `i`, which must be the current position unless a star went before, is sound. */
  lemma LiteralStep(star: bool, text: string, f: string, s: string, i: nat)
    requires Plain(text) && OccursAt(s, text, i) && (!star ==> i == 0)
    requires Accepts(f, s[i + |text|..])
    ensures Resumes(star, text + f, s)
  {
    var t := s[i..];
    assert text <= t && t[|text|..] == s[i + |text|..];
    AcceptsLiteral(text, f, t);
    if star { AcceptsStar(text + f, s, i); } else { assert t == s; }
  }

  /** Choosing an alternative of a closed brace is sound. */
  lemma BraceStep(f: string, s: string, a: string)
    requires Closed(f) && a in Alternatives(BraceList(f)) && Accepts(a + BraceRest(f), s)
    ensures Accepts(f, s)
  {}

  lemma QuestionStep(f: string, s: string)
    ensures Accepts("?" + f, s) <==> s != "" && Accepts(f, s[1..])
  {
    assert ("?" + f)[1..] == f;
  }

  /** An unclosed brace is a literal. */
  lemma OpenBraceStep(f: string, s: string)
    requires '}' !in f
    ensures Accepts("{" + f, s) <==> s != "" && s[0] == '{' && Accepts(f, s[1..])
  {
    assert ("{" + f)[1..] == f;
  }

  // ------------------------------------------ the matcher on brace-free filters

  /** The first special character, or the length. */
  function FirstSpecial(f: string): (i: nat)
    ensures i <= |f| && Plain(f[..i])
    ensures i < |f| ==> Special(f[i])
  {
    if f == "" || Special(f[0]) then 0
    else
      var i := 1 + FirstSpecial(f[1..]);
      assert f[..i] == [f[0]] + f[1..][..i - 1];
      i
  }

  lemma FirstSpecialIs(f: string, i: nat)
    requires i <= |f| && Plain(f[..i]) && (i < |f| ==> Special(f[i]))
    ensures FirstSpecial(f) == i
  {
    hide FirstSpecial;
    var j := FirstSpecial(f);
    assert forall k :: 0 <= k < i ==> f[..i][k] == f[k];
    assert forall k :: 0 <= k < j ==> f[..j][k] == f[k];
  }

  predicate BraceFree(f: string) { '{' !in f }

  /** Where the next literal is taken: the leftmost place after a star, the current one otherwise. */
  ghost function Place(star: bool, text: string, s: string): Option<nat> {
    if text == "" then Some(0)
    else if star then (if exists i :: IsFirst(s, text, Some(i)) then var i :| IsFirst(s, text, Some(i)); Some(i) else None)
    else if text <= s then Some(0)
    else None
  }

  /** Turns of the matching loop on a filter without braces. */
  function Turns(f: string): nat {
    if f == "" then 0
    else
      var i := FirstSpecial(f);
      1 + (if i == |f| then 0 else Turns(f[i + 1..]))
  }

  /** What the loop computes on a filter without braces, budget aside. */
  ghost predicate Greedy(star: bool, f: string, s: string)
    decreases |f|
  {
    if f == "" then star || s == ""
    else
      var i := FirstSpecial(f);
      var p := Place(star, f[..i], s);
      if p == None || p.value + i > |s| then false
      else
        var t := s[p.value + i..];
        if i == |f| then t == ""
        else if f[i] == '*' then Greedy(true, f[i + 1..], t)
        else t != "" && Greedy(false, f[i + 1..], t[1..])
  }

  lemma PlaceIs(star: bool, text: string, s: string, r: Option<nat>)
    requires text != "" && IsFirst(s, text, r)
    ensures Place(star, text, s) == if r == None || (!star && r.value > 0) then None else r
  {
    assert |text| <= |s| ==> s[0..0 + |text|] == s[..|text|];
    assert text <= s <==> OccursAt(s, text, 0);
    assert forall i: nat :: IsFirst(s, text, Some(i)) ==> r == Some(i);
  }

  /** One turn of the loop, unfolded. */
  lemma GreedyStep(star: bool, f: string, s: string, text: string)
    requires f != "" && |text| == FirstSpecial(f) && f[..|text|] == text
    ensures var i, p := |text|, Place(star, text, s);
      Greedy(star, f, s) <==>
        (p.Some? && p.value + i <= |s|
         && var t := s[p.value + i..];
            if i == |f| then t == ""
            else if f[i] == '*' then Greedy(true, f[i + 1..], t)
            else t != "" && Greedy(false, f[i + 1..], t[1..]))
  {
    hide Place, FirstSpecial;
  }

  lemma GreedyEnd(star: bool, s: string)
    ensures Greedy(star, "", s) <==> star || s == ""
    ensures Resumes(star, "", s) <==> star || s == ""
  {
    if star {
      assert s[|s|..] == "";
      AcceptsStar("", s, |s|);
    }
  }

  // ------------------------------------------------ the matcher on all filters

  /** A verdict, and the turns used up in all. */
  datatype Outcome = Outcome(ok: bool, used: nat)

  /** What the matcher answers when `n` turns are gone: a text is taken at its place, then the token decides. When the
      budget is gone the answer is no. */
  ghost function Match(star: bool, f: string, s: string, n: nat): (o: Outcome)
    ensures n <= MATCHITERS_MAX ==> n <= o.used <= MATCHITERS_MAX
    decreases |f|, 2
  {
    if f == "" || n >= MATCHITERS_MAX then Outcome(f == "" && (star || s == "") && n < MATCHITERS_MAX, n)
    else
      var i := FirstSpecial(f);
      var p := Place(star, f[..i], s);
      if p == None || p.value + i > |s| then Outcome(false, n + 1)
      else if i == |f| then Outcome(p.value + i == |s| && n + 1 < MATCHITERS_MAX, n + 1)
      else AtToken(f[i..], s[p.value + i..], n + 1)
  }

  /** The filter starts with a token. */
  ghost function AtToken(g: string, s: string, n: nat): (o: Outcome)
    ensures n <= MATCHITERS_MAX ==> n <= o.used <= MATCHITERS_MAX
    decreases |g|, 1
  {
    if g == "" then Outcome(false, n)
    else if g[0] == '*' then Match(true, g[1..], s, n)
    else if Closed(g) then Tries(BraceList(g), BraceRest(g), s, n)
    else if s == "" || (g[0] == '{' && s[0] != '{') then Outcome(false, n)
    else Match(false, g[1..], s[1..], n)
  }

  /** The alternatives one after the other; the first one that is empty ends the search. */
  ghost function Tries(list: string, rest: string, s: string, n: nat): (o: Outcome)
    ensures n <= MATCHITERS_MAX ==> n <= o.used <= MATCHITERS_MAX
    decreases |list| + |rest| + 1, 0
  {
    var i := IndexOf(list, ',');
    if i == 0 then Outcome(false, n)
    else
      var o := Match(false, list[..i] + rest, s, n);
      if o.ok || i == |list| then o else Tries(list[i + 1..], rest, s, o.used)
  }

  lemma AlternativesSplit(list: string)
    ensures var i := IndexOf(list, ',');
      Alternatives(list) == if i == |list| then [list] else [list[..i]] + Alternatives(list[i + 1..])
  {
    hide IndexOf;
    var i := IndexOf(list, ',');
    if i == |list| {
      assert Alternatives(list) == [list];
    } else {
      var tail := Alternatives(list[i + 1..]);
      assert Alternatives(list) == [list[..i]] + tail;
    }
  }

  /** An accepted alternative is one of the list. */
  lemma {:induction false} TriesSound(list: string, rest: string, s: string, n: nat)
    requires Tries(list, rest, s, n).ok
    ensures exists a :: a in Alternatives(list) && Accepts(a + rest, s)
    decreases |list| + |rest| + 1, 0
  {
    hide Accepts, Alternatives, Match;
    var i := IndexOf(list, ',');
    AlternativesSplit(list);
    assert list[..|list|] == list;
    if Match(false, list[..i] + rest, s, n).ok {
      MatchSound(false, list[..i] + rest, s, n);
      NotAfterStar(list[..i] + rest, s);
      assert list[..i] in Alternatives(list);
    } else {
      TriesSound(list[i + 1..], rest, s, Match(false, list[..i] + rest, s, n).used);
      var a :| a in Alternatives(list[i + 1..]) && Accepts(a + rest, s);
      assert a in Alternatives(list);
    }
  }

  lemma {:induction false} TokenSound(g: string, s: string, n: nat)
    requires g != "" && Special(g[0]) && AtToken(g, s, n).ok
    ensures Accepts(g, s)
    decreases |g|, 1
  {
    hide Accepts, Match, Tries, Alternatives;
    assert g == [g[0]] + g[1..];
    if g[0] == '*' {
      MatchSound(true, g[1..], s, n);
      AfterToken(true, g[1..], s);
    } else if Closed(g) {
      TriesSound(BraceList(g), BraceRest(g), s, n);
      var a :| a in Alternatives(BraceList(g)) && Accepts(a + BraceRest(g), s);
      BraceStep(g, s, a);
    } else {
      MatchSound(false, g[1..], s[1..], n);
      NotAfterStar(g[1..], s[1..]);
      if g[0] == '?' { QuestionStep(g[1..], s); } else { OpenBraceStep(g[1..], s); }
    }
  }

  /** Whatever the matcher accepts is in the language of the filter. */
  lemma {:induction false} MatchSound(star: bool, f: string, s: string, n: nat)
    requires Match(star, f, s, n).ok
    ensures Resumes(star, f, s)
    decreases |f|, 2
  {
    hide Accepts, AtToken, Resumes;
    if f == "" {
      GreedyEnd(star, s);
    } else {
      var i := FirstSpecial(f);
      var p := Place(star, f[..i], s);
      PlaceOccurs(star, f[..i], s);
      var g, t := f[i..], s[p.value + i..];
      assert f == f[..i] + g;
      if i < |f| { TokenSound(g, t, n + 1); } else { AcceptsNothing(); }
      LiteralStep(star, f[..i], g, s, p.value);
    }
  }

  lemma AcceptsNothing()
    ensures Accepts("", "")
  {
  }

  lemma PlaceOccurs(star: bool, text: string, s: string)
    requires Place(star, text, s).Some?
    ensures OccursAt(s, text, Place(star, text, s).value) && (!star ==> Place(star, text, s).value == 0)
  {
    if text == "" {
      assert s[0..0] == "";
    } else if !star {
      assert s[0..0 + |text|] == s[..|text|];
    }
  }

  /** One turn, unfolded. */
  lemma MatchTurn(star: bool, f: string, s: string, n: nat)
    requires f != "" && n < MATCHITERS_MAX
    ensures var i := FirstSpecial(f);
      var p := Place(star, f[..i], s);
      Match(star, f, s, n)
      == if p == None || p.value + i > |s| then Outcome(false, n + 1)
         else if i == |f| then Outcome(p.value + i == |s| && n + 1 < MATCHITERS_MAX, n + 1)
         else AtToken([f[i]] + f[i + 1..], s[p.value + i..], n + 1)
  {
    hide Place, FirstSpecial, AtToken;
    var i := FirstSpecial(f);
    if i < |f| { assert f[i..] == [f[i]] + f[i + 1..]; }
  }

  /** One turn for each special character, and one for a text at the end. */
  lemma TurnsMeans(c: char, f: string)
    ensures Turns("") == 0
    ensures Turns([c] + f) == if c in "*?{" then 1 + Turns(f) else if f == "" then 1 else Turns(f)
  {
    var g := [c] + f;
    assert g[1..] == f && g[0] == c;
    FirstOf(c, f);
    var i := FirstSpecial(g);
    if Special(c) {
      assert g[i + 1..] == f;
    } else if f != "" && i < |g| {
      assert g[i + 1..] == f[i..];
      TurnsStep(f);
    }
  }

  lemma FirstOf(c: char, f: string)
    ensures FirstSpecial([c] + f) == if Special(c) then 0 else 1 + FirstSpecial(f)
  {
    assert ([c] + f)[1..] == f;
  }

  lemma TurnsStep(f: string)
    requires f != ""
    ensures var i := FirstSpecial(f); Turns(f) == 1 + (if i == |f| then 0 else Turns(f[i + 1..]))
  {
    hide FirstSpecial;
  }

  /** Without braces the matcher is the greedy match, if its turns fit the budget. */
  lemma {:induction false} MatchBraceFree(star: bool, f: string, s: string, n: nat)
    requires BraceFree(f)
    ensures Match(star, f, s, n).ok <==> n + Turns(f) < MATCHITERS_MAX && Greedy(star, f, s)
    decreases |f|
  {
    hide Match, Greedy, Turns, AtToken, Place, FirstSpecial, Tries;
    TurnsPositive(f);
    GreedyEnd(star, s);
    if f == "" || n >= MATCHITERS_MAX {
      MatchEnd(star, f, s, n);
    } else {
      var i := FirstSpecial(f);
      MatchTurn(star, f, s, n);
      GreedyStep(star, f, s, f[..i]);
      TurnsStep(f);
      if i < |f| {
        assert f[i] in f;
        var p := Place(star, f[..i], s);
        if p.Some? && p.value + i <= |s| {
          var t := s[p.value + i..];
          TokenStep(Some(f[i]), f[i + 1..], t, n + 1);
          if f[i] == '*' {
            MatchBraceFree(true, f[i + 1..], t, n + 1);
          } else if t != "" {
            MatchBraceFree(false, f[i + 1..], t[1..], n + 1);
          }
        }
      }
    }
  }

  // ------------------------------------------------------------- the matcher

  /** The loop over the alternatives of a closed brace; an empty alternative ends it. */
  method TryAlternatives(name: string, list0: string, rest: string, iters0: nat) returns (ret: bool, iters: nat)
    requires iters0 <= MATCHITERS_MAX && NulFree(list0) && NulFree(rest)
    ensures Outcome(ret, iters) == Tries(list0, rest, name, iters0)
    decreases MATCHITERS_MAX - iters0, 1
  {
    hide Accepts, Greedy, Turns, Match, Tries, IndexOf;
    iters := iters0;
    var list, tail := SplitChar(list0, ',');
    ghost var todo := list0;
    while list != ""
      invariant iters0 <= iters <= MATCHITERS_MAX && NulFree(list) && NulFree(tail)
      invariant var i := IndexOf(todo, ','); list == todo[..i] && tail == if i < |todo| then todo[i + 1..] else ""
      invariant Tries(todo, rest, name, iters) == Tries(list0, rest, name, iters0)
      decreases |list| + |tail|
    {
      TriesStep(todo, rest, name, iters);
      ret, iters := PassesFilter(name, list + rest, iters);
      if ret {
        return;
      }
      todo := tail;
      list, tail := SplitChar(tail, ',');
    }
    TriesStep(todo, rest, name, iters);
    ret := false;
  }

  /** One turn of that loop, unfolded. */
  lemma TriesStep(list: string, rest: string, s: string, n: nat)
    requires n <= MATCHITERS_MAX
    ensures var i := IndexOf(list, ',');
      var first, tail := list[..i], if i < |list| then list[i + 1..] else "";
      if first == "" then Tries(list, rest, s, n) == Outcome(false, n)
      else
        var o := Match(false, first + rest, s, n);
        Tries(list, rest, s, n) == if o.ok then o else Tries(tail, rest, s, o.used)
  {
    hide Match;
    var i := IndexOf(list, ',');
    if i == |list| && list != "" {
      var o := Match(false, list[..i] + rest, s, n);
      assert Tries("", rest, s, o.used) == Outcome(false, o.used);
    }
  }

  /** The matcher, with the iteration budget shared by the recursive calls for brace alternatives: it never takes more
      than 1000 turns in all, it accepts only names in the language of the filter, and without braces it accepts
      exactly what the greedy left-to-right match accepts within the budget. */
  method PassesFilter(name: string, filter: string, iters0: nat) returns (ret: bool, iters: nat)
    requires iters0 <= MATCHITERS_MAX && NulFree(filter)
    ensures Outcome(ret, iters) == Match(false, filter, name, iters0)
    ensures iters0 <= iters <= 1000
    ensures ret ==> Accepts(filter, name)
    ensures '{' !in filter ==> (ret <==> iters0 + Turns(filter) < 1000 && Greedy(false, filter, name))
    decreases MATCHITERS_MAX - iters0, 0
  {
    hide Accepts, Greedy, Place, Resumes, Turns, Closed, BraceList, BraceRest, IsFirst, Plain, Special, FirstSpecial, NulFree, Match, AtToken, Tries;
    MatchMeans(filter, name, iters0);
    iters := iters0;
    var fr, nr := filter, name;
    var last: Option<char> := None;
    var must := true;
    while fr != "" && iters < MATCHITERS_MAX
      invariant iters0 <= iters <= MATCHITERS_MAX && NulFree(fr)
      invariant fr != "" ==> must == (last != Some('*'))
      invariant Match(last == Some('*'), fr, nr, iters) == Match(false, filter, name, iters0)
      decreases MATCHITERS_MAX - iters
    {
      ghost var star, f0, n0 := last == Some('*'), fr, nr;
      iters := iters + 1;
      var i, text;
      i, text, last, fr := NextToken(fr);
      if text != "" {
        var found := Locate(nr, text);
        if found == None || (must && found.value > 0) {
          Missed(star, f0, n0, i, found, iters - 1);
          return false, iters;
        }
        Took(star, f0, n0, i, found, found.value, iters - 1);
        nr := nr[found.value + |text|..];
      } else {
        Took(star, f0, n0, i, None, 0, iters - 1);
      }
      TokenStep(last, fr, nr, iters);
      if last == Some('?') {
        if nr == "" {
          return false, iters;
        }
        nr := nr[1..];
        must := true;
      } else if last == Some('{') {
        must := true;
        if '}' in fr {
          var list, rest := SplitBrace(fr);
          ret, iters := TryAlternatives(nr, list, rest, iters);
          return;
        } else if nr == "" || nr[0] != '{' {
          return false, iters;
        } else {
          nr := nr[1..];
        }
      } else {
        must := false;
      }
    }
    MatchEnd(last == Some('*'), fr, nr, iters);
    if nr != "" && last != Some('*') {
      return false, iters;
    }
    ret := iters != MATCHITERS_MAX;
  }

  lemma MatchMeans(f: string, s: string, n: nat)
    ensures Match(false, f, s, n).ok ==> Accepts(f, s)
    ensures BraceFree(f) ==> (Match(false, f, s, n).ok <==> n + Turns(f) < MATCHITERS_MAX && Greedy(false, f, s))
  {
    hide Match, Accepts, Greedy, Turns, BraceFree;
    if Match(false, f, s, n).ok { MatchSound(false, f, s, n); }
    if BraceFree(f) { MatchBraceFree(false, f, s, n); }
  }

  lemma MatchEnd(star: bool, f: string, s: string, n: nat)
    requires f == "" || n >= MATCHITERS_MAX
    ensures Match(star, f, s, n) == Outcome(f == "" && (star || s == "") && n < MATCHITERS_MAX, n)
  {
  }

  /** What the token decides. */
  lemma TokenStep(last: Option<char>, f: string, s: string, n: nat)
    ensures last == Some('*') ==> AtToken("*" + f, s, n) == Match(true, f, s, n)
    ensures last == Some('?') ==> AtToken("?" + f, s, n) == if s == "" then Outcome(false, n) else Match(false, f, s[1..], n)
    ensures last == Some('{') && '}' in f ==>
              Closed("{" + f) && AtToken("{" + f, s, n) == Tries(BraceList("{" + f), BraceRest("{" + f), s, n)
    ensures last == Some('{') && '}' !in f ==>
              AtToken("{" + f, s, n) == if s == "" || s[0] != '{' then Outcome(false, n) else Match(false, f, s[1..], n)
  {
    hide Match, Tries;
    assert ("*" + f)[1..] == f && ("?" + f)[1..] == f && ("{" + f)[1..] == f;
  }

  /** The text is not where it must be. */
  lemma Missed(star: bool, f: string, s: string, i: nat, found: Option<nat>, n: nat)
    requires f != "" && 0 < i <= |f| && Plain(f[..i]) && (i < |f| ==> Special(f[i])) && IsFirst(s, f[..i], found)
    requires (found == None || (!star && found.value > 0)) && n < MATCHITERS_MAX
    ensures Match(star, f, s, n) == Outcome(false, n + 1)
  {
    hide Place, IsFirst, Plain, Special, FirstSpecial, AtToken;
    FirstSpecialIs(f, i);
    PlaceIs(star, f[..i], s, found);
  }

  /** The text is found at `at`: what remains to be matched. */
  lemma Took(star: bool, f: string, s: string, i: nat, found: Option<nat>, at: nat, n: nat)
    requires f != "" && i <= |f| && Plain(f[..i]) && (i < |f| ==> Special(f[i])) && n < MATCHITERS_MAX
    requires if i == 0 then at == 0 else IsFirst(s, f[..i], found) && found == Some(at) && (!star ==> at == 0)
    ensures at + i <= |s|
    ensures Match(star, f, s, n)
         == if i == |f| then Match(false, "", s[at + i..], n + 1) else AtToken([f[i]] + f[i + 1..], s[at + i..], n + 1)
  {
    hide Place, Plain, Special, FirstSpecial, AtToken;
    FirstSpecialIs(f, i);
    if i == 0 { PlaceEmpty(star, s); } else { PlaceIs(star, f[..i], s, found); }
    if i < |f| { assert f[i..] == [f[i]] + f[i + 1..]; }
  }

  lemma TokenText(f: string, r: Option<nat>)
    requires r == None ==> forall c :: c in f ==> c !in "*?{"
    requires r.Some? ==> r.value < |f| && f[r.value] in "*?{" && forall c :: c in f[..r.value] ==> c !in "*?{"
    ensures var i := if r.Some? then r.value else |f|; Plain(f[..i]) && (i < |f| ==> Special(f[i]))
  {
    assert forall c :: c in "*?{" <==> Special(c);
    assert f[..|f|] == f;
  }

  lemma TurnsPositive(f: string)
    ensures f != "" ==> Turns(f) > 0
    ensures Turns("") == 0
  {}

  lemma NotAfterStar(f: string, s: string)
    ensures Resumes(false, f, s) <==> Accepts(f, s)
  {}

  /** After a star, or after the last text of the filter. */
  lemma AfterToken(star: bool, f: string, s: string)
    ensures star ==> (Resumes(true, f, s) <==> Accepts("*" + f, s))
    ensures !star && f == "" ==> (Resumes(false, f, s) <==> Accepts("", s))
  {}

  lemma PlaceEmpty(star: bool, s: string)
    ensures Place(star, "", s) == Some(0) && OccursAt(s, "", 0)
  {
    assert s[0..0] == "";
  }

  /** A C string holds no NUL. */
  predicate NulFree(s: string) { '\0' !in s }

  method Locate(s: string, text: string) returns (r: Option<nat>)
    requires NulFree(text) && text != ""
    ensures IsFirst(s, text, r)
  {
    r := LocateText(s, text);
  }

  /** Isolating the text before the next token. */
  method NextToken(f: string) returns (i: nat, text: string, last: Option<char>, rest: string)
    requires NulFree(f)
    ensures i <= |f| && text == f[..i] && Plain(text) && NulFree(text) && NulFree(rest)
    ensures last == if i < |f| then Some(f[i]) else None
    ensures rest == if i < |f| then f[i + 1..] else ""
    ensures i < |f| ==> Special(f[i])
    ensures last == None || last == Some('*') || last == Some('?') || last == Some('{')
  {
    var located := LocateChars(f, "*?{");
    TokenText(f, located);
    i := if located.Some? then located.value else |f|;
    text := f[..i];
    if located.Some? {
      last, rest := Some(f[i]), f[i + 1..];
    } else {
      last, rest := None, "";
    }
  }

  /** Isolating the brace list. */
  method SplitBrace(f: string) returns (list: string, rest: string)
    requires NulFree(f) && '}' in f
    ensures NulFree(list) && NulFree(rest)
    ensures Closed("{" + f) && list == BraceList("{" + f) && rest == BraceRest("{" + f)
  {
    assert ("{" + f)[1..] == f;
    list, rest := SplitChar(f, '}');
  }
}
