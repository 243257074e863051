/** Filters with braces: what the matcher does with them, and when that is what they stand for. */
module GlobBraces {
  import opened Wrappers
  import opened Defs
  import opened Strings
  import opened Glob
  import opened GlobExact

  // -------------------------------------------------------- the budget aside

  /** The alternatives that are tried: those before the first empty one. */
  function Tried(list: string): (alts: seq<string>)
    ensures forall a :: a in alts ==> a != "" && |a| <= |list|
  {
    var i := IndexOf(list, ',');
    if i == 0 then []
    else [list[..i]] + (if i == |list| then [] else Tried(list[i + 1..]))
  }

  lemma TriedSplit(list: string)
    ensures var i := IndexOf(list, ',');
      Tried(list) == if i == 0 then [] else [list[..i]] + (if i == |list| then [] else Tried(list[i + 1..]))
  {
    hide IndexOf;
    var i := IndexOf(list, ',');
    if 0 < i < |list| {
      var tail := Tried(list[i + 1..]);
      assert Tried(list) == [list[..i]] + tail;
    }
  }

  /** The alternatives that are tried are alternatives; all are, if none is empty. */
  lemma {:induction false} TriedAre(list: string)
    ensures forall a :: a in Tried(list) ==> a in Alternatives(list)
    ensures "" !in Alternatives(list) ==> Tried(list) == Alternatives(list)
  {
    hide Tried, Alternatives;
    var i := IndexOf(list, ',');
    TriedSplit(list);
    AlternativesSplit(list);
    assert list[..|list|] == list;
    if i < |list| {
      hide IndexOf;
      TriedAre(list[i + 1..]);
    } else {
      assert [list] + [] == [list];
    }
  }

  /** What the matcher computes, had it all the turns it wants. */
  ghost predicate Loose(star: bool, f: string, s: string)
    decreases |f|, 2
  {
    if f == "" then star || s == ""
    else
      var i := FirstSpecial(f);
      var p := Place(star, f[..i], s);
      p.Some? && p.value + i <= |s|
      && if i == |f| then p.value + i == |s| else LooseToken(f[i..], s[p.value + i..])
  }

  ghost predicate LooseToken(g: string, s: string)
    decreases |g|, 1
  {
    if g == "" then false
    else if g[0] == '*' then Loose(true, g[1..], s)
    else if Closed(g) then LooseTries(BraceList(g), BraceRest(g), s)
    else s != "" && (g[0] == '{' ==> s[0] == '{') && Loose(false, g[1..], s[1..])
  }

  ghost predicate LooseTries(list: string, rest: string, s: string)
    decreases |list| + |rest| + 1, 0
  {
    exists a :: a in Tried(list) && Loose(false, a + rest, s)
  }

  /** Turns that a filter may take, whatever the name. */
  function Cost(f: string): nat
    decreases |f|, 2
  {
    if f == "" then 0
    else
      var i := FirstSpecial(f);
      1 + if i == |f| then 0 else CostToken(f[i..])
  }

  function CostToken(g: string): nat
    decreases |g|, 1
  {
    if g == "" then 0 else if Closed(g) then CostTries(BraceList(g), BraceRest(g)) else Cost(g[1..])
  }

  function CostTries(list: string, rest: string): nat
    decreases |list| + |rest| + 1, 0
  {
    var i := IndexOf(list, ',');
    if i == 0 then 0
    else Cost(list[..i] + rest) + if i == |list| then 0 else CostTries(list[i + 1..], rest)
  }

  /** With enough of the budget left the matcher is not cut short. */
  lemma {:induction false} Affordable(star: bool, f: string, s: string, n: nat)
    requires n + Cost(f) < MATCHITERS_MAX
    ensures Match(star, f, s, n).used <= n + Cost(f)
    ensures Match(star, f, s, n).ok <==> Loose(star, f, s)
    decreases |f|, 2
  {
    hide AtToken, LooseToken, CostToken, Place, FirstSpecial;
    if f != "" {
      var i := FirstSpecial(f);
      var p := Place(star, f[..i], s);
      if p.Some? && p.value + i <= |s| && i < |f| {
        AffordableToken(f[i..], s[p.value + i..], n + 1);
      }
    }
  }

  lemma {:induction false} AffordableToken(g: string, s: string, n: nat)
    requires n + CostToken(g) < MATCHITERS_MAX
    ensures AtToken(g, s, n).used <= n + CostToken(g)
    ensures AtToken(g, s, n).ok <==> LooseToken(g, s)
    decreases |g|, 1
  {
    hide Match, Loose, Cost, Tries, LooseTries, CostTries;
    if g != "" {
      if g[0] == '*' {
        Affordable(true, g[1..], s, n);
      } else if Closed(g) {
        AffordableTries(BraceList(g), BraceRest(g), s, n);
      } else if s != "" {
        Affordable(false, g[1..], s[1..], n);
      }
    }
  }

  lemma {:induction false} AffordableTries(list: string, rest: string, s: string, n: nat)
    requires n + CostTries(list, rest) < MATCHITERS_MAX
    ensures Tries(list, rest, s, n).used <= n + CostTries(list, rest)
    ensures Tries(list, rest, s, n).ok <==> LooseTries(list, rest, s)
    decreases |list| + |rest| + 1, 0
  {
    hide Match, Loose, Cost, Tried, IndexOf;
    var i := IndexOf(list, ',');
    TriedSplit(list);
    if i > 0 {
      var first := list[..i];
      Affordable(false, first + rest, s, n);
      assert first in Tried(list);
      var o := Match(false, first + rest, s, n);
      if !o.ok && i < |list| {
        var tail := list[i + 1..];
        AffordableTries(tail, rest, s, o.used);
        assert forall a :: a in Tried(list) <==> a == first || a in Tried(tail);
      } else {
        assert i == |list| ==> Tried(list) == [first];
      }
    }
  }

  // --------------------------------------------- up to the first star, by character

  /** The language, but with the alternatives that are tried, and handed over to the greedy match at the first star. */
  ghost predicate Takes(f: string, s: string)
    decreases |f|
  {
    if f == "" then s == ""
    else if f[0] == '*' then Loose(true, f[1..], s)
    else if f[0] == '?' then s != "" && Takes(f[1..], s[1..])
    else if Closed(f) then exists a :: a in Tried(BraceList(f)) && Takes(a + BraceRest(f), s)
    else s != "" && s[0] == f[0] && Takes(f[1..], s[1..])
  }

  lemma LooseAtToken(f: string, s: string)
    requires f != "" && Special(f[0])
    ensures Loose(false, f, s) <==> LooseToken(f, s)
  {
    hide LooseToken, Place;
    FirstSpecialIs(f, 0);
    assert f[..0] == "" && f[0..] == f && s[0..] == s;
    PlaceEmpty(false, s);
  }

  /** One turn, unfolded. */
  lemma LooseTurn(f: string, s: string)
    requires f != ""
    ensures var i := FirstSpecial(f);
      Loose(false, f, s) <==>
        f[..i] <= s && if i == |f| then i == |s| else LooseToken(f[i..], s[i..])
  {
    hide LooseToken, FirstSpecial;
    PlacePrefix(f[..FirstSpecial(f)], s);
  }

  lemma FirstSpecialStep(f: string)
    requires f != "" && !Special(f[0])
    ensures FirstSpecial(f) == 1 + FirstSpecial(f[1..])
  {
  }

  lemma LooseAtChar(f: string, s: string)
    requires f != "" && !Special(f[0])
    ensures Loose(false, f, s) <==> s != "" && s[0] == f[0] && Loose(false, f[1..], s[1..])
  {
    hide Loose, LooseToken, FirstSpecial;
    var i := FirstSpecial(f);
    FirstSpecialStep(f);
    LooseTurn(f, s);
    SliceStep(f, i);
    if s != "" {
      PrefixStep(f, i, s);
      if i <= |s| { SliceStep(s, i); }
      if f[1..] == "" { LooseEnd(false, s[1..]); } else { LooseTurn(f[1..], s[1..]); }
    }
  }

  lemma SliceStep(s: string, i: nat)
    requires 0 < i <= |s|
    ensures s[i..] == s[1..][i - 1..]
  {
  }

  lemma PrefixStep(f: string, i: nat, s: string)
    requires 0 < i <= |f| && s != ""
    ensures f[..i] <= s <==> f[0] == s[0] && f[1..][..i - 1] <= s[1..]
  {
    assert f[..i] == [f[0]] + f[1..][..i - 1];
    assert s == [s[0]] + s[1..];
    PrefixCons(f[0], f[1..][..i - 1], s[0], s[1..]);
  }

  lemma PrefixCons(c: char, a: string, d: char, b: string)
    ensures [c] + a <= [d] + b <==> c == d && a <= b
  {
    assert ([c] + a)[1..] == a && ([d] + b)[1..] == b;
    if [c] + a <= [d] + b { assert ([d] + b)[0] == ([c] + a)[0]; }
  }

  lemma {:induction false} LooseIsTakes(f: string, s: string)
    ensures Loose(false, f, s) <==> Takes(f, s)
    decreases |f|
  {
    hide Loose;
    if f == "" {
      LooseEnd(false, s);
    } else if !Special(f[0]) {
      LooseAtChar(f, s);
      if s != "" { LooseIsTakes(f[1..], s[1..]); }
    } else {
      LooseAtToken(f, s);
      if f[0] != '*' && Closed(f) {
        forall a | a in Tried(BraceList(f))
          ensures Loose(false, a + BraceRest(f), s) <==> Takes(a + BraceRest(f), s)
        {
          LooseIsTakes(a + BraceRest(f), s);
        }
      } else if f[0] != '*' && s != "" {
        LooseIsTakes(f[1..], s[1..]);
      }
    }
  }

  lemma LooseEnd(star: bool, s: string)
    ensures Loose(star, "", s) <==> star || s == ""
  {
  }

  lemma {:induction false} LooseBraceFree(star: bool, f: string, s: string)
    requires BraceFree(f)
    ensures Loose(star, f, s) <==> Greedy(star, f, s)
    decreases |f|
  {
    hide Place, FirstSpecial;
    if f != "" {
      var i := FirstSpecial(f);
      var p := Place(star, f[..i], s);
      if p.Some? && p.value + i <= |s| && i < |f| {
        var g, t := f[i..], s[p.value + i..];
        assert g[0] == f[i] && g[1..] == f[i + 1..] && f[i] in f;
        if g[0] == '*' {
          LooseBraceFree(true, g[1..], t);
        } else if t != "" {
          LooseBraceFree(false, g[1..], t[1..]);
        }
      }
    }
  }

  // -------------------------------------------------------------- when it is exact

  /** No brace has an empty alternative, and what follows a star is free of braces and tame. */
  predicate Gentle(f: string)
    decreases |f|
  {
    if f == "" then true
    else if f[0] == '*' then BraceFree(f[1..]) && TameStar(f[1..])
    else if Closed(f) then
      "" !in Alternatives(BraceList(f)) && forall a :: a in Alternatives(BraceList(f)) ==> Gentle(a + BraceRest(f))
    else Gentle(f[1..])
  }

  lemma {:induction false} GentleTakes(f: string, s: string)
    requires Gentle(f)
    ensures Takes(f, s) <==> Accepts(f, s)
    decreases |f|
  {
    if f != "" {
      if f[0] == '*' {
        LooseBraceFree(true, f[1..], s);
        TameStarExact(f[1..], s);
        assert f == "*" + f[1..];
      } else if Closed(f) {
        TriedAre(BraceList(f));
        forall a | a in Alternatives(BraceList(f))
          ensures Takes(a + BraceRest(f), s) <==> Accepts(a + BraceRest(f), s)
        {
          GentleTakes(a + BraceRest(f), s);
        }
      } else if s != "" {
        GentleTakes(f[1..], s[1..]);
      }
    }
  }

  /** On a gentle filter whose cost fits the budget the matcher decides the language. */
  lemma GentleExact(f: string, s: string, used: nat)
    requires Gentle(f) && used + Cost(f) < MATCHITERS_MAX
    ensures Match(false, f, s, used).ok <==> Accepts(f, s)
  {
    hide Match, Accepts, Gentle, Cost, Loose, Takes;
    Affordable(false, f, s, used);
    LooseIsTakes(f, s);
    GentleTakes(f, s);
  }

  // ------------------------------------------- and when not: filters without stars

  predicate StarFree(f: string) { '*' !in f }

  /** No brace opens inside a brace list. */
  predicate Unnested(f: string)
    decreases |f|
  {
    if f == "" then true
    else if Closed(f) then '{' !in BraceList(f) && Unnested(BraceRest(f))
    else Unnested(f[1..])
  }

  /** A shortest alternative. */
  function ShortestOf(list: string): (r: string)
    ensures |r| <= |list|
  {
    var i := IndexOf(list, ',');
    if i == |list| then list
    else
      var other := ShortestOf(list[i + 1..]);
      if i <= |other| then list[..i] else other
  }

  lemma {:induction false} ShortestIs(list: string)
    ensures ShortestOf(list) in Alternatives(list)
    ensures forall a :: a in Alternatives(list) ==> |ShortestOf(list)| <= |a|
  {
    hide IndexOf, Alternatives;
    AlternativesSplit(list);
    var i := IndexOf(list, ',');
    if i < |list| { ShortestIs(list[i + 1..]); }
  }

  /** The length of the shortest names. */
  function MinLen(f: string): nat
    decreases |f|
  {
    if f == "" then 0
    else if Closed(f) then |ShortestOf(BraceList(f))| + MinLen(BraceRest(f))
    else 1 + MinLen(f[1..])
  }

  /** One of the shortest names. */
  function ShortName(f: string): string
    decreases |f|
  {
    if f == "" then ""
    else if Closed(f) then ShortName(ShortestOf(BraceList(f)) + BraceRest(f))
    else [if f[0] == '?' then 'a' else f[0]] + ShortName(f[1..])
  }

  /** Only literals and question marks. */
  predicate Flat(a: string) { '{' !in a && '*' !in a }

  /** What a flat text in front of a filter does to all that. */
  lemma {:induction false} FlatFront(a: string, f: string)
    requires Flat(a)
    ensures MinLen(a + f) == |a| + MinLen(f)
    ensures Gentle(a + f) <==> Gentle(f)
    ensures Unnested(a + f) <==> Unnested(f)
    decreases |a|
  {
    if a == "" {
      assert a + f == f;
    } else {
      assert (a + f)[1..] == a[1..] + f && (a + f)[0] == a[0] && a[0] in a;
      FlatFront(a[1..], f);
    }
  }

  lemma {:induction false} FlatTakes(a: string, f: string, s: string)
    requires Flat(a) && Takes(a + f, s)
    ensures |a| <= |s| && Takes(f, s[|a|..])
    decreases |a|
  {
    if a == "" {
      assert a + f == f && s[0..] == s;
    } else {
      assert (a + f)[1..] == a[1..] + f && (a + f)[0] == a[0] && a[0] in a;
      FlatTakes(a[1..], f, s[1..]);
      assert s[1..][|a| - 1..] == s[|a|..];
    }
  }

  /** The parts of a brace in an unnested filter without stars. */
  lemma BraceParts(f: string)
    requires Closed(f) && StarFree(f) && Unnested(f)
    ensures StarFree(BraceRest(f)) && Unnested(BraceRest(f))
    ensures forall a :: a in Alternatives(BraceList(f)) ==> Flat(a) && StarFree(a + BraceRest(f)) && Unnested(a + BraceRest(f))
  {
    var list, rest := BraceList(f), BraceRest(f);
    assert forall c :: c in list ==> c in f;
    assert forall c :: c in rest ==> c in f;
    hide Closed, BraceList, BraceRest;
    forall a | a in Alternatives(list)
      ensures Flat(a) && StarFree(a + rest) && Unnested(a + rest)
    {
      AlternativeChars(list, a);
      FlatFront(a, rest);
    }
  }

  lemma {:induction false} AlternativeChars(list: string, a: string)
    requires a in Alternatives(list)
    ensures forall c :: c in a ==> c in list
  {
    hide IndexOf, Alternatives;
    AlternativesSplit(list);
    var i := IndexOf(list, ',');
    if i < |list| && a != list[..i] {
      AlternativeChars(list[i + 1..], a);
    }
  }

  /** A brace is not gentle because of an empty alternative, or because of what follows. */
  lemma GentleBrace(f: string)
    requires Closed(f) && StarFree(f) && Unnested(f)
    ensures Gentle(f) <==> "" !in Alternatives(BraceList(f)) && Gentle(BraceRest(f))
  {
    var list, rest := BraceList(f), BraceRest(f);
    BraceParts(f);
    ShortestIs(list);
    forall a | a in Alternatives(list)
      ensures Gentle(a + rest) <==> Gentle(rest)
    {
      FlatFront(a, rest);
    }
    var some := ShortestOf(list);
    assert some in Alternatives(list);
  }

  /** If some brace has an empty alternative, the matcher takes no shortest name. */
  lemma {:induction false} TakesLonger(f: string, s: string)
    requires StarFree(f) && Unnested(f) && Takes(f, s)
    ensures |s| >= MinLen(f) + if Gentle(f) then 0 else 1
    decreases |f|
  {
    if f != "" {
      assert f[0] in f;
      if Closed(f) {
        var list, rest := BraceList(f), BraceRest(f);
        var a :| a in Tried(list) && Takes(a + rest, s);
        TriedAre(list);
        BraceParts(f);
        GentleBrace(f);
        ShortestIs(list);
        FlatTakes(a, rest, s);
        TakesLonger(rest, s[|a|..]);
      } else {
        TakesLonger(f[1..], s[1..]);
      }
    }
  }

  lemma {:induction false} ShortNameIs(f: string)
    requires StarFree(f) && Unnested(f)
    ensures Accepts(f, ShortName(f)) && |ShortName(f)| == MinLen(f)
    decreases |f|
  {
    if f != "" {
      assert f[0] in f;
      if Closed(f) {
        var list, rest := BraceList(f), BraceRest(f);
        BraceParts(f);
        ShortestIs(list);
        FlatFront(ShortestOf(list), rest);
        ShortNameIs(ShortestOf(list) + rest);
      } else {
        ShortNameIs(f[1..]);
        assert ShortName(f)[1..] == ShortName(f[1..]);
      }
    }
  }

  /** Without stars and nested braces, and with its cost within the budget, a filter is matched exactly, for all names, if
      and only if no brace has an empty alternative. */
  lemma BracesExactIff(f: string, used: nat)
    requires StarFree(f) && Unnested(f) && used + Cost(f) < MATCHITERS_MAX
    ensures Gentle(f) <==> forall s :: Match(false, f, s, used).ok <==> Accepts(f, s)
  {
    hide Match, Accepts, Gentle, Cost, Loose, Takes, MinLen, ShortName, Unnested;
    if Gentle(f) {
      forall s ensures Match(false, f, s, used).ok <==> Accepts(f, s) { GentleExact(f, s, used); }
    } else {
      var s := ShortName(f);
      ShortNameIs(f);
      Affordable(false, f, s, used);
      LooseIsTakes(f, s);
      if Takes(f, s) { TakesLonger(f, s); }
      assert Accepts(f, s) && !Match(false, f, s, used).ok;
    }
  }

  /** A list that starts with an empty alternative is never matched, whatever else it offers. */
  lemma EmptyFirst(f: string, s: string, n: nat)
    requires Closed(f) && IndexOf(BraceList(f), ',') == 0
    ensures !Match(false, f, s, n).ok
  {
    hide IndexOf, Match, Place, FirstSpecial, BraceList, BraceRest, Closed;
    if n >= MATCHITERS_MAX {
      MatchEnd(false, f, s, n);
    } else {
      BraceSpecial(f);
      FirstSpecialIs(f, 0);
      MatchTurn(false, f, s, n);
      assert f[..0] == "" && [f[0]] + f[1..] == f && s[0..] == s;
      PlaceEmpty(false, s);
    }
  }

  lemma BraceSpecial(f: string)
    requires Closed(f)
    ensures f != "" && f[0] == '{' && Special(f[0])
  {
  }

  // ------------------------------------------------------------------ nesting

  /** A brace with this list, and what follows it. */
  lemma BraceMeans(list: string, rest: string, s: string)
    requires '}' !in list
    ensures var f := "{" + list + "}" + rest;
      && Closed(f) && BraceList(f) == list && BraceRest(f) == rest
      && (Accepts(f, s) <==> exists a :: a in Alternatives(list) && Accepts(a + rest, s))
      && (Takes(f, s) <==> exists a :: a in Tried(list) && Takes(a + rest, s))
  {
    var f := "{" + list + "}" + rest;
    var g := list + "}" + rest;
    assert f[1..] == g && g[..|list|] == list && g[|list| + 1..] == rest;
    TermAt(g, '}', |list|);
    hide IndexOf, Alternatives, Tried;
  }

  lemma QuestionMeans(f: string, s: string)
    ensures Takes("?" + f, s) <==> s != "" && Takes(f, s[1..])
    ensures Accepts("?" + f, s) <==> s != "" && Accepts(f, s[1..])
  {
    assert ("?" + f)[1..] == f;
  }

  lemma NothingMeans(s: string)
    ensures Takes("", s) <==> s == ""
    ensures Accepts("", s) <==> s == ""
  {
  }

  /** A list without a comma, not empty. */
  lemma OneAlternative(a: string)
    requires ',' !in a && a != ""
    ensures Alternatives(a) == Tried(a) == [a]
  {
    hide Alternatives, Tried, IndexOf;
    AlternativesSplit(a);
    TriedSplit(a);
    assert a[..|a|] == a && [a] + [] == [a];
  }

  lemma EmptyAlternatives()
    ensures Alternatives(",") == ["", ""] && Tried(",") == []
  {
    hide Alternatives, Tried, IndexOf;
    var comma := ",";
    assert comma[..0] == "" && comma[1..] == "";
    TermAt(comma, ',', 0);
    AlternativesSplit(comma);
    TriedSplit(comma);
    AlternativesSplit("");
  }

  /** A list of one text and two empty alternatives. */
  lemma OneAndTwoEmpty(a: string)
    requires ',' !in a && a != ""
    ensures Alternatives(a + ",,") == [a, "", ""] && Tried(a + ",,") == [a]
  {
    hide Alternatives, Tried, IndexOf;
    var list := a + ",,";
    assert list[..|a|] == a && list[|a| + 1..] == ",";
    TermAt(list, ',', |a|);
    AlternativesSplit(list);
    TriedSplit(list);
    EmptyAlternatives();
  }

  /** "?{?}" stands for the names of two characters, and so it is taken. */
  lemma TwoChars(s: string)
    ensures Takes("?" + ("{" + "?" + "}" + ""), s) <==> |s| == 2
    ensures Accepts("?" + ("{" + "?" + "}" + ""), s) <==> |s| == 2
  {
    hide Takes, Accepts, Alternatives, Tried, Closed, BraceList, BraceRest;
    QuestionMeans("{" + "?" + "}" + "", s);
    if s != "" {
      var t := s[1..];
      BraceMeans("?", "", t);
      OneAlternative("?");
      assert "?" in ["?"];
      QuestionMeans("", t);
      if t != "" { NothingMeans(t[1..]); }
    }
  }

  /** Nesting is another matter: in "{?{,,}?}" an alternative opens a brace that what follows closes, two alternatives are
      empty, and still exactly the names of two characters are meant and taken. */
  lemma NestedExample(s: string)
    ensures var f := "{" + ("?{" + ",,") + "}" + "?}"; !Gentle(f) && (Takes(f, s) <==> Accepts(f, s))
  {
    hide Takes, Accepts, Alternatives, Tried, Closed, BraceList, BraceRest;
    var list, rest := "?{" + ",,", "?}";
    OneAndTwoEmpty("?{");
    BraceMeans(list, rest, s);
    assert "?{" in [ "?{", "", ""] && "" in ["?{", "", ""] && "?{" in ["?{"];
    assert forall a :: a in ["?{", "", ""] ==> a == "?{" || a == "";
    assert "?{" + rest == "?" + ("{" + "?" + "}" + "") && "" + rest == rest;
    TwoChars(s);
    if Accepts(rest, s) {
      assert rest == "?" + "}";
      QuestionMeans("}", s);
      assert "}" == "}" + "";
      assert forall c :: c in "}" ==> c == '}';
      assert Plain("}");
      AcceptsLiteral("}", "", s[1..]);
      NothingMeans(s[1..][1..]);
    }
    NotGentle("{" + list + "}" + rest);
  }

  lemma NotGentle(f: string)
    requires Closed(f) && "" in Alternatives(BraceList(f))
    ensures !Gentle(f)
  {
  }

  // ------------------------------------------------------- an empty alternative

  /** The smallest example: "{,a}" stands for "a" and for nothing, and matches neither. */
  lemma EmptyAlternativeExample(n: nat)
    ensures var f := "{" + ("," + "a") + "}" + "";
      && Accepts(f, "a") && Accepts(f, "") && !Gentle(f)
      && !Match(false, f, "a", n).ok && !Match(false, f, "", n).ok
  {
    hide Match, Takes, Accepts, Alternatives, Tried, Closed, BraceList, BraceRest, IndexOf;
    var list := "," + "a";
    var f := "{" + list + "}" + "";
    BraceMeans(list, "", "a");
    BraceMeans(list, "", "");
    assert list[..0] == "" && list[1..] == "a";
    TermAt(list, ',', 0);
    AlternativesSplit(list);
    OneAlternative("a");
    assert "a" in Alternatives(list) && "" in Alternatives(list);
    AcceptsLiteral("a", "", "a");
    NothingMeans("");
    assert "a"[1..] == "" && "" + "" == "";
    NotGentle(f);
    EmptyFirst(f, "a", n);
    EmptyFirst(f, "", n);
  }
}
