/** Control channel replies: escaping a text so that it is one line, and how a client reads it back. */
module Reply {
  import opened Wrappers
  import opened Strings

  const IAC := '\U{00FF}'

  // ------------------------------------------------------- text replacement

  /** Left-to-right, non-overlapping replacement; there is no occurrence of the empty text. */
  function Subst(s: string, from: string, to: string): string
    decreases |s|
  {
    if s == "" || from == "" then s
    else if from <= s then to + Subst(s[|from|..], from, to)
    else [s[0]] + Subst(s[1..], from, to)
  }

  lemma {:induction false} SubstNone(s: string, from: string, to: string)
    requires from != "" && forall j :: !OccursAt(s, from, j)
    ensures Subst(s, from, to) == s
  {
    if s != "" {
      NoPrefix(s, from);
      forall j ensures !OccursAt(s[1..], from, j) { OccursLater(s, from, j); }
      SubstNone(s[1..], from, to);
      assert s == [s[0]] + s[1..];
    }
  }

  lemma NoPrefix(s: string, from: string)
    ensures from <= s <==> OccursAt(s, from, 0)
  {
    assert |from| <= |s| ==> s[0..0 + |from|] == s[..|from|];
  }

  lemma OccursLater(s: string, from: string, j: int)
    requires s != ""
    ensures j >= 0 ==> (OccursAt(s[1..], from, j) <==> OccursAt(s, from, j + 1))
  {
    if j >= 0 && j + 1 + |from| <= |s| {
      assert s[1..][j..j + |from|] == s[j + 1..j + 1 + |from|];
    }
  }

  /** The first occurrence is the first one replaced. */
  lemma {:induction false} SubstFirst(s: string, from: string, to: string, i: nat)
    requires from != "" && IsFirst(s, from, Some(i))
    ensures Subst(s, from, to) == s[..i] + to + Subst(s[i + |from|..], from, to)
    decreases i
  {
    hide OccursAt, IsFirst, Subst;
    FirstFacts(s, from, i);
    SubstStep(s, from, to);
    if i == 0 {
      assert s[..0] + to == to;
    } else {
      var rest := s[1..];
      SubstFirst(rest, from, to, i - 1);
      assert rest[i - 1 + |from|..] == s[i + |from|..];
      Regroup(s, i, to, Subst(s[i + |from|..], from, to));
    }
  }

  lemma SubstStep(s: string, from: string, to: string)
    requires from != "" && s != ""
    ensures from <= s ==> Subst(s, from, to) == to + Subst(s[|from|..], from, to)
    ensures !(from <= s) ==> Subst(s, from, to) == [s[0]] + Subst(s[1..], from, to)
  {
  }

  lemma Regroup(s: string, i: nat, to: string, last: string)
    requires 0 < i <= |s|
    ensures [s[0]] + (s[1..][..i - 1] + to + last) == s[..i] + to + last
  {
    assert s[..i] == [s[0]] + s[1..][..i - 1];
  }

  lemma FirstFacts(s: string, from: string, i: nat)
    requires from != "" && IsFirst(s, from, Some(i))
    ensures i + |from| <= |s|
    ensures i == 0 ==> from <= s
    ensures i > 0 ==> !(from <= s) && IsFirst(s[1..], from, Some(i - 1))
  {
    NoPrefix(s, from);
    forall j ensures j >= 0 ==> (OccursAt(s[1..], from, j) <==> OccursAt(s, from, j + 1)) { OccursLater(s, from, j); }
  }

  /** str_replace_text: split at the first occurrence, copy, replace, go on with the right-hand side. */
  method ReplaceText(s: string, from: string, to: string) returns (out: string)
    requires '\0' !in from
    ensures out == Subst(s, from, to)
  {
    hide Subst, IsFirst;
    var lhs := s;
    out := "";
    var more := true;
    while more
      invariant out + Subst(lhs, from, to) == Subst(s, from, to)
      invariant !more ==> lhs == ""
      decreases more, |lhs|
    {
      var before := lhs;
      var rhs;
      lhs, rhs := SplitText(lhs, from, to);
      var piece := if |lhs| < |before| then lhs + to else lhs;
      assert out + (piece + Subst(rhs, from, to)) == (out + piece) + Subst(rhs, from, to);
      out := out + piece;
      lhs := rhs;
      more := lhs != "";
    }
    SubstEmpty(from, to);
    assert out + "" == out;
  }

  lemma SubstEmpty(from: string, to: string)
    ensures Subst("", from, to) == ""
  {}

  /** str_split_text, with what it means for the replacement. */
  method SplitText(s: string, from: string, ghost to: string) returns (lhs: string, rhs: string)
    requires '\0' !in from
    ensures |rhs| < |s| || rhs == ""
    ensures Subst(s, from, to) == (if |lhs| < |s| then lhs + to else lhs) + Subst(rhs, from, to)
  {
    var r := LocateText(s, from);
    match r
    case None =>
      lhs, rhs := s, "";
      if from != "" { SubstNone(s, from, to); }
      assert s + "" == s;
    case Some(i) =>
      lhs, rhs := s[..i], s[i + |from|..];
      SubstFirst(s, from, to, i);
  }

  /** Every `from` turned into `to`. */
  function MapChar(s: string, from: char, to: char): (r: string)
    ensures |r| == |s|
  {
    seq(|s|, i requires 0 <= i < |s| => if s[i] == from then to else s[i])
  }

  /** str_replace_char, in place. */
  method ReplaceChar(buf: array<char>, from: char, to: char)
    modifies buf
    ensures buf[..] == MapChar(old(buf[..]), from, to)
    ensures forall k :: 0 <= k < buf.Length ==> buf[k] == if old(buf[k]) == from then to else old(buf[k])
  {
    var i := 0;
    while i < buf.Length
      invariant 0 <= i <= buf.Length
      invariant forall k :: 0 <= k < buf.Length ==>
        buf[k] == if k < i && old(buf[k]) == from then to else old(buf[k])
    {
      if buf[i] == from {
        buf[i] := to;
      }
      i := i + 1;
    }
  }

  // --------------------------------------------------------- whole replies

  const DIGITS := "0123456789"

  function Decimal(n: nat): string {
    if n < 10 then [("0123456789")[n]] else Decimal(n / 10) + [("0123456789")[n % 10]]
  }

  /** Telnet IAC doubled, then LF sent as NUL. */
  function Escape(text: string): string {
    MapChar(Subst(text, [IAC], [IAC, IAC]), '\n', '\0')
  }

  function Line(status: nat, sep: char, text: string): string {
    Decimal(status) + [sep] + Escape(text) + "\r\n"
  }

  /** ftp_write_str_common: building what is sent. */
  method BuildLine(status: nat, sep: char, text: string) returns (line: string)
    ensures line == Line(status, sep, text)
    ensures sep !in DIGITS ==>
              var d := DigitsOf(line);
              && d < |line| && line[d] == sep && Value(line[..d]) == status
              && (100 <= status <= 999 ==> d == 3)
    ensures |line| >= 2 && line[|line| - 2..] == "\r\n"
  {
    hide Subst, Decimal, Value, DigitsOf;
    if sep !in DIGITS { StatusReadBack(status, sep, text); }
    var doubled := ReplaceText(text, [IAC], [IAC, IAC]);
    var buf := new char[|doubled|](i requires 0 <= i < |doubled| => doubled[i]);
    assert buf[..] == doubled;
    ReplaceChar(buf, '\n', '\0');
    line := Decimal(status) + [sep];
    line := line + buf[..];
    line := line + "\r\n";
  }

  /** How many digits a line starts with. */
  function DigitsOf(line: string): (d: nat)
    ensures d <= |line| && (d < |line| ==> line[d] !in DIGITS)
    ensures forall i :: 0 <= i < d ==> line[i] in DIGITS
  {
    if line == "" || line[0] !in DIGITS then 0 else 1 + DigitsOf(line[1..])
  }

  /** What a text of digits says, taken from the left. */
  function Value(digits: string): int {
    if digits == "" then 0 else 10 * Value(digits[..|digits| - 1]) + (digits[|digits| - 1] as int - '0' as int)
  }

  lemma {:induction false} DecimalValue(n: nat)
    ensures Value(Decimal(n)) == n && forall c :: c in Decimal(n) ==> c in DIGITS
    ensures |Decimal(n)| == if n < 10 then 1 else |Decimal(n / 10)| + 1
  {
    var c := DIGITS[n % 10];
    assert c as int - '0' as int == n % 10;
    if n >= 10 {
      DecimalValue(n / 10);
      var s := Decimal(n);
      assert s[..|s| - 1] == Decimal(n / 10) && s[|s| - 1] == c;
    } else {
      assert Decimal(n) == [c] && [c][..0] == "";
    }
  }

  /** A client that takes the digits at the front of a reply gets its status, with the separator behind it; an ordinary
      status has three digits. */
  lemma StatusReadBack(status: nat, sep: char, text: string)
    requires sep !in DIGITS
    ensures var line := Line(status, sep, text);
      var d := DigitsOf(line);
      && d < |line| && line[d] == sep && Value(line[..d]) == status
      && (100 <= status <= 999 ==> d == 3)
  {
    hide Decimal, Value, Escape;
    DecimalValue(status);
    var line, n := Line(status, sep, text), |Decimal(status)|;
    assert line[..n] == Decimal(status) && line[n] == sep;
    forall i | 0 <= i < n ensures line[i] in DIGITS { assert line[i] == Decimal(status)[i]; }
    var d := DigitsOf(line);
    assert d == n;
    if 100 <= status <= 999 {
      DecimalValue(status / 10);
      DecimalValue(status / 10 / 10);
    }
  }

  /** What becomes of each character of a text: IAC is doubled, LF is sent as NUL, and the others stay. */
  lemma EscapeStep(c: char, rest: string)
    ensures Escape("") == ""
    ensures Escape([c] + rest)
         == (if c == '\U{00FF}' then ['\U{00FF}', '\U{00FF}'] else if c == '\n' then "\0" else [c]) + Escape(rest)
  {
    var text, t := [c] + rest, Subst(rest, [IAC], [IAC, IAC]);
    assert text[0] == c && text[|[IAC]|..] == rest && text[1..] == rest;
    assert [IAC] <= text <==> [IAC][0] == c;
    if c == IAC {
      assert MapChar([IAC, IAC] + t, '\n', '\0') == [IAC, IAC] + MapChar(t, '\n', '\0');
    } else {
      assert MapChar([c] + t, '\n', '\0') == [if c == '\n' then '\0' else c] + MapChar(t, '\n', '\0');
    }
  }

  /** What a client does: doubled IAC collapsed, NUL read as LF. */
  function Collapse(s: string): string {
    if s == "" then ""
    else if s[0] == IAC && |s| > 1 && s[1] == IAC then [IAC] + Collapse(s[2..])
    else [s[0]] + Collapse(s[1..])
  }

  function ClientReads(line: string, status: nat): string
    requires |line| >= |Decimal(status)| + 3
  {
    MapChar(Collapse(line[|Decimal(status)| + 1..|line| - 2]), '\0', '\n')
  }

  lemma {:induction false} CollapseSubst(text: string)
    ensures Collapse(MapChar(Subst(text, [IAC], [IAC, IAC]), '\n', '\0')) == MapChar(text, '\n', '\0')
  {
    if text != "" {
      var c, rest := text[0], text[1..];
      var t := Subst(rest, [IAC], [IAC, IAC]);
      CollapseSubst(rest);
      assert [IAC] <= text <==> c == IAC;
      assert text[|[IAC]|..] == rest;
      assert MapChar(text, '\n', '\0') == [if c == '\n' then '\0' else c] + MapChar(rest, '\n', '\0');
      if c == IAC {
        var u := MapChar([IAC, IAC] + t, '\n', '\0');
        assert u[0] == IAC && u[1] == IAC && u[2..] == MapChar(t, '\n', '\0');
      } else {
        var u := MapChar([c] + t, '\n', '\0');
        assert u[0] != IAC && u[1..] == MapChar(t, '\n', '\0');
      }
    }
  }

  lemma {:induction false} DecimalDigits(n: nat)
    ensures |Decimal(n)| > 0 && '\n' !in Decimal(n)
  {
    if n >= 10 { DecimalDigits(n / 10); }
  }

  /** A reply is one line: its only LF is its last byte. */
  lemma OneLine(status: nat, sep: char, text: string)
    requires sep != '\n'
    ensures var line := Line(status, sep, text);
      |line| >= |Decimal(status)| + 3 && line[|line| - 1] == '\n' && '\n' !in line[..|line| - 1]
  {
    hide Subst, Decimal;
    DecimalDigits(status);
    var line, e := Line(status, sep, text), Escape(text);
    assert '\n' !in e;
    assert line[..|line| - 1] == Decimal(status) + [sep] + e + "\r";
  }

  /** A client that undoes the escapes gets the text back exactly when it holds no NUL. */
  lemma ReplyRoundTrip(status: nat, sep: char, text: string)
    ensures |Line(status, sep, text)| >= |Decimal(status)| + 3
    ensures ClientReads(Line(status, sep, text), status) == text <==> '\0' !in text
  {
    hide Decimal;
    var line, e := Line(status, sep, text), Escape(text);
    assert line[|Decimal(status)| + 1..|line| - 2] == e;
    CollapseSubst(text);
    hide Subst, Collapse;
    MapBack(text);
  }

  lemma MapBack(text: string)
    ensures MapChar(MapChar(text, '\n', '\0'), '\0', '\n') == text <==> '\0' !in text
  {
    var back := MapChar(MapChar(text, '\n', '\0'), '\0', '\n');
    if i :| 0 <= i < |text| && text[i] == '\0' {
      assert back[i] == '\n';
    } else {
      assert back == text;
    }
  }

  // ------------------------------------------------------------- PWD and MKD

  /** A path in quotes, its own quotes doubled, and what follows. */
  function Quoted(path: string, tail: string): string {
    "\"" + Subst(path, "\"", "\"\"") + "\"" + tail
  }

  /** handle_pwd: the text of the reply. */
  method PwdText(path: string) returns (text: string)
    ensures text == Quoted(path, " is the current directory")
    ensures "\"" <= text && "\" is the current directory" == text[1 + |Subst(path, "\"", "\"\"")|..]
  {
    hide Subst;
    var mangled := ReplaceText(path, "\"", "\"\"");
    text := "\"";
    text := text + mangled;
    text := text + "\" is the current directory";
    assert "\" is the current directory" == "\"" + " is the current directory";
  }

  /** Reading behind an opening quote up to the closing one: a doubled quote stands for one. */
  function Unquote(s: string): string {
    if s == "" then ""
    else if s[0] == '\"' then (if |s| > 1 && s[1] == '\"' then "\"" + Unquote(s[2..]) else "")
    else [s[0]] + Unquote(s[1..])
  }

  /** Undoing the quotes recovers the path, whatever quotes it holds. */
  lemma {:induction false} QuotesRoundTrip(path: string, tail: string)
    requires tail == "" || tail[0] != '\"'
    ensures Unquote(Quoted(path, tail)[1..]) == path
  {
    var t := Subst(path, "\"", "\"\"");
    assert Quoted(path, tail)[1..] == t + ("\"" + tail);
    UnquoteSubst(path, tail);
  }

  lemma {:induction false} UnquoteSubst(path: string, tail: string)
    requires tail == "" || tail[0] != '\"'
    ensures Unquote(Subst(path, "\"", "\"\"") + ("\"" + tail)) == path
  {
    var close := "\"" + tail;
    if path == "" {
      assert "" + close == close;
      assert |close| > 1 ==> close[1] == tail[0];
    } else {
      var c, rest := path[0], path[1..];
      var t := Subst(rest, "\"", "\"\"");
      UnquoteSubst(rest, tail);
      assert "\"" <= path <==> c == '\"';
      assert path[|"\""|..] == rest && path == [c] + rest;
      if c == '\"' {
        var u := "\"\"" + t + close;
        assert u[0] == '\"' && u[1] == '\"' && u[2..] == t + close;
      } else {
        var u := [c] + t + close;
        assert u[0] == c && u[1..] == t + close;
      }
    }
  }
}
