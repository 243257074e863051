/** Reading one command line from the network by peeking and consuming. */
module LineReader {
  import opened Strings

  function Min(a: nat, b: nat): nat { if a <= b then a else b }

  /** What a peek at the rest of the stream may show: at least one byte if there is any, at most `left`. */
  function PeekSize(wish: nat, left: nat, rest: nat): (n: nat)
    ensures n <= left && n <= rest && (left > 0 && rest > 0 ==> n > 0)
  {
    Min(if wish == 0 then 1 else wish, Min(left, rest))
  }

  /** str_alloc_alt_term: the text of the buffer up to the terminator, which must be there. */
  method TextBefore(buf: array<char>, term: char, ghost at: nat) returns (line: string)
    requires at < buf.Length && buf[at] == term && term !in buf[..at]
    ensures line == buf[..at]
  {
    assert forall k :: 0 <= k < at ==> buf[..at][k] == buf[k];
    var len := 0;
    while buf[len] != term
      invariant len <= at
      decreases at - len
    {
      len := len + 1;
    }
    line := buf[..len];
  }

  /** Bytes of the stream put in the buffer, by a peek or by the read that follows it. */
  method Fill(buf: array<char>, pos: nat, bytes: string)
    requires pos + |bytes| <= buf.Length
    modifies buf
    ensures buf[..pos + |bytes|] == old(buf[..pos]) + bytes
  {
    forall k | 0 <= k < |bytes| { buf[pos + k] := bytes[k]; }
  }

  /** The search for the terminator in what a peek showed. */
  method Search(buf: array<char>, pos: nat, n: nat, term: char) returns (i: nat)
    requires pos + n <= buf.Length
    ensures i <= n && (i < n ==> buf[pos + i] == term)
    ensures forall k :: pos <= k < pos + i ==> buf[k] != term
  {
    i := 0;
    while i < n
      invariant 0 <= i <= n && forall k :: pos <= k < pos + i ==> buf[k] != term
    {
      if buf[pos + i] == term {
        return;
      }
      i := i + 1;
    }
  }

  /** Consuming up to the terminator and taking the line from the buffer. */
  method TakeLine(buf: array<char>, pos: nat, stream: string, i: nat, term: char) returns (line: string)
    requires i > 0 && pos + i <= buf.Length && pos + i <= |stream| && buf[..pos] == stream[..pos]
    requires stream[pos + i - 1] == term && term !in stream[..pos + i - 1]
    modifies buf
    ensures line == stream[..pos + i - 1]
  {
    Joined(stream, pos, i);
    Fill(buf, pos, stream[pos..pos + i]);
    assert buf[pos + i - 1] == buf[..pos + i][pos + i - 1];
    assert buf[..pos + i - 1] == buf[..pos + i][..pos + i - 1];
    line := TextBefore(buf, term, pos + i - 1);
  }

  /** A peek of n bytes into the free part of the buffer, and the search for the terminator in them. */
  method PeekAndSearch(buf: array<char>, pos: nat, stream: string, n: nat, term: char) returns (i: nat)
    requires pos + n <= buf.Length && pos + n <= |stream| && buf[..pos] == stream[..pos] && term !in stream[..pos]
    modifies buf
    ensures buf[..pos] == stream[..pos]
    ensures i <= n && term !in stream[..pos + i] && (i < n ==> stream[pos + i] == term)
  {
    Joined(stream, pos, n);
    Fill(buf, pos, stream[pos..pos + n]);
    i := Search(buf, pos, n, term);
    ghost var shown := buf[..pos + n];
    assert buf[..pos] == shown[..pos];
    NoTermIn(stream, shown, term, pos, i);
  }

  /** str_netfd_alloc: however the peeks cut the stream, the line before the first terminator is returned and exactly
      the line and its terminator are consumed, provided the terminator is among the first `maxlen` bytes; otherwise
      the result is -1 after `maxlen` bytes, or 0 at the end of the stream. */
  method ReadLine(stream: string, term: char, maxlen: nat, wishes: nat -> nat)
    returns (ret: int, line: string, consumed: nat)
    ensures var t := IndexOf(stream, term);
      if t < |stream| && t < maxlen then 0 < ret <= t + 1 && line == stream[..t] && consumed == t + 1
      else if |stream| >= maxlen then ret == -1 && line == "" && consumed == maxlen
      else ret == 0 && line == "" && consumed == |stream|
  {
    hide IndexOf;
    var buf := new char[maxlen];
    var pos, left, turn := 0, maxlen, 0;
    consumed, line := 0, "";
    while true
      invariant pos + left == maxlen && consumed == pos <= |stream| && pos <= maxlen
      invariant buf[..pos] == stream[..pos] && term !in stream[..pos]
      decreases left
    {
      NoTermYet(stream, term, pos);
      // The source's buffer accounting check is this equality.
      assert pos + left == maxlen;
      if left == 0 {
        return -1, "", consumed;
      }
      var n := PeekSize(wishes(turn), left, |stream| - consumed);
      turn := turn + 1;
      var i := PeekAndSearch(buf, pos, stream, n, term);
      if n == 0 {
        return 0, "", consumed;
      }
      if i < n {
        i := i + 1;
        TermAt(stream, term, pos + i - 1);
        line := TakeLine(buf, pos, stream, i, term);
        return i, line, consumed + i;
      }
      left := left - n;
      Joined(stream, pos, n);
      Fill(buf, pos, stream[consumed..consumed + n]);
      consumed := consumed + n;
      pos := pos + n;
    }
  }

  lemma Joined(s: string, pos: nat, n: nat)
    requires pos + n <= |s|
    ensures s[..pos] + s[pos..pos + n] == s[..pos + n]
  {}

  lemma NoTermIn(s: string, shown: string, term: char, pos: nat, i: nat)
    requires pos + i <= |shown| <= |s| && shown == s[..|shown|] && term !in s[..pos]
    requires forall k :: pos <= k < pos + i ==> shown[k] != term
    ensures term !in s[..pos + i]
    ensures pos + i < |shown| ==> s[pos + i] == shown[pos + i]
  {
    assert forall k :: 0 <= k < pos ==> s[..pos][k] == s[k];
    assert forall k :: pos <= k < pos + i ==> shown[k] == s[k];
  }

  lemma NoTermYet(s: string, c: char, n: nat)
    requires n <= |s| && c !in s[..n]
    ensures IndexOf(s, c) >= n
  {
    var i := IndexOf(s, c);
    assert forall k :: 0 <= k < n ==> s[..n][k] == s[k];
  }
}
