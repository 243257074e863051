/** Searching, splitting and replacing in counted strings. */
module Strings {
  import opened Wrappers

  predicate EndsCr(s: string) { s != "" && s[|s| - 1] == '\r' }

  /** The first position of `c`, or the length if there is none. */
  function IndexOf(s: string, c: char): (i: nat)
    ensures i <= |s|
    ensures i < |s| ==> s[i] == c
    ensures i < |s| <==> c in s
    ensures c !in s[..i]
  {
    if s == "" then 0
    else if s[0] == c then 0
    else
      var i := 1 + IndexOf(s[1..], c);
      assert s[..i] == [s[0]] + s[1..][..i - 1];
      i
  }

  lemma TermAt(s: string, c: char, n: nat)
    requires n < |s| && s[n] == c && c !in s[..n]
    ensures IndexOf(s, c) == n
  {
    hide IndexOf;
    var j := IndexOf(s, c);
    assert forall k :: 0 <= k < n ==> s[..n][k] == s[k];
    assert forall k :: 0 <= k < j ==> s[..j][k] == s[k];
  }

  /** `text` stands in `s` at `i`. */
  predicate OccursAt(s: string, text: string, i: int) {
    0 <= i && i + |text| <= |s| && s[i..i + |text|] == text
  }

  /** The first occurrence of a nonempty text. */
  ghost predicate IsFirst(s: string, text: string, r: Option<nat>) {
    match r
    case Some(i) => OccursAt(s, text, i) && forall j :: 0 <= j < i ==> !OccursAt(s, text, j)
    case None => forall j :: !OccursAt(s, text, j)
  }

  /** str_locate_text: the first occurrence of a C string; the empty text is never found. */
  method LocateText(s: string, text: string) returns (r: Option<nat>)
    requires '\0' !in text
    ensures text == "" ==> r == None
    ensures text != "" ==> IsFirst(s, text, r)
  {
    if |text| == 0 || |text| > |s| {
      return None;
    }
    var i := 0;
    while i <= |s| - |text|
      invariant 0 <= i <= |s| - |text| + 1
      invariant forall j :: 0 <= j < i ==> !OccursAt(s, text, j)
    {
      if s[i..i + |text|] == text {
        return Some(i);
      }
      i := i + 1;
    }
    return None;
  }

  /** str_locate_chars: the first position holding any of `chars`. */
  method LocateChars(s: string, chars: string) returns (r: Option<nat>)
    ensures r == None ==> forall c :: c in s ==> c !in chars
    ensures r.Some? ==> r.value < |s| && s[r.value] in chars && forall c :: c in s[..r.value] ==> c !in chars
  {
    var i := 0;
    while i < |s|
      invariant 0 <= i <= |s|
      invariant forall k :: 0 <= k < i ==> s[k] !in chars
    {
      var j := 0;
      while j < |chars|
        invariant 0 <= j <= |chars|
        invariant forall k :: 0 <= k < j ==> chars[k] != s[i]
      {
        if chars[j] == s[i] {
          return Some(i);
        }
        j := j + 1;
      }
      i := i + 1;
    }
    return None;
  }

  lemma FirstOccurrenceOfChar(s: string, c: char, r: Option<nat>)
    requires IsFirst(s, [c], r)
    ensures r == if IndexOf(s, c) < |s| then Some(IndexOf(s, c)) else None
  {
    var i := IndexOf(s, c);
    forall j | 0 <= j < |s| ensures OccursAt(s, [c], j) <==> s[j] == c {
      assert s[j..j + 1] == [s[j]];
    }
    forall j | 0 <= j < i ensures s[j] != c {
      assert s[..i][j] == s[j];
    }
  }

  /** str_split_char: the parts before and after the first `c`; the second is empty if there is none. */
  method SplitChar(s: string, c: char) returns (left: string, right: string)
    requires c != '\0'
    ensures left == s[..IndexOf(s, c)]
    ensures right == if IndexOf(s, c) < |s| then s[IndexOf(s, c) + 1..] else ""
  {
    var r := LocateText(s, [c]);
    FirstOccurrenceOfChar(s, c, r);
    match r
    case None => left, right := s, "";
    case Some(i) => left, right := s[..i], s[i + 1..];
  }
}
