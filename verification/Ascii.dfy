/** ASCII mode transfers: conversion of line ends, chunk by chunk, against the conversion of the whole stream. */
module Ascii {
  import opened Defs
  import opened Strings

  // --------------------------------------------------------- whole streams

  /** Every CR that directly precedes an LF removed. */
  function Strip(s: string): string {
    if s == "" then ""
    else if s[0] == '\r' && |s| > 1 && s[1] == '\n' then Strip(s[1..])
    else [s[0]] + Strip(s[1..])
  }

  /** Every LF that no CR precedes given one; `prev` says whether a CR went before. */
  function Expand(prev: bool, s: string): string
    decreases |s|
  {
    if s == "" then ""
    else if s[0] == '\n' && !prev then "\r\n" + Expand(false, s[1..])
    else [s[0]] + Expand(s[0] == '\r', s[1..])
  }

  /** What can be said of a stream so far: a CR at its end is still undecided. */
  function StripOpen(s: string): string {
    if EndsCr(s) then Strip(s[..|s| - 1]) else Strip(s)
  }

  function Pending(cr: bool): string { if cr then "\r" else "" }

  predicate NoCrLf(s: string) {
    forall i :: 0 <= i < |s| - 1 ==> !(s[i] == '\r' && s[i + 1] == '\n')
  }

  lemma StripUnfold(c: char, b: string)
    ensures Strip([c] + b) == (if c == '\r' && b != "" && b[0] == '\n' then "" else [c]) + Strip(b)
  {
    assert ([c] + b)[1..] == b;
  }

  lemma StripOpenStep(a: string)
    requires |a| > 1
    ensures EndsCr(a) == EndsCr(a[1..])
    ensures StripOpen(a) == (if a[0] == '\r' && a[1] == '\n' then "" else [a[0]]) + StripOpen(a[1..])
  {
    if EndsCr(a) {
      var t := a[..|a| - 1];
      assert t[1..] == a[1..][..|a| - 2];
      assert t == [t[0]] + t[1..];
      StripUnfold(t[0], t[1..]);
    } else {
      assert a == [a[0]] + a[1..];
      StripUnfold(a[0], a[1..]);
    }
  }

  lemma StripCutOne(c: char, b: string)
    ensures Strip([c] + b) == StripOpen([c]) + Strip(Pending(c == '\r') + b)
  {
    assert [c][..0] == "";
    StripUnfold(c, b);
    StripUnfold(c, "");
    assert [c] + "" == [c];
    assert "" + b == b;
    assert "" + Strip([c] + b) == Strip([c] + b);
  }

  /** Cutting a stream anywhere: the undecided CR goes with the second part. */
  lemma {:induction false} StripCut(a: string, b: string)
    ensures Strip(a + b) == StripOpen(a) + Strip(Pending(EndsCr(a)) + b)
  {
    if a == "" {
      assert a + b == b && Pending(false) + b == b;
    } else if |a| == 1 {
      assert a == [a[0]];
      StripCutOne(a[0], b);
    } else {
      hide Strip, StripOpen, Pending, EndsCr;
      var rest := a[1..];
      assert a + b == [a[0]] + (rest + b) && (rest + b)[0] == a[1];
      StripUnfold(a[0], rest + b);
      StripOpenStep(a);
      StripCut(rest, b);
    }
  }

  /** What one call adds when it is given the next, nonempty, part. */
  function Converted(prevCr: bool, chunk: string): string {
    (if prevCr && (chunk == "" || chunk[0] != '\n') then "\r" else "") + StripOpen(chunk)
  }

  lemma PendingStrip(cr: bool, chunk: string)
    requires chunk != ""
    ensures StripOpen(Pending(cr) + chunk) == Converted(cr, chunk)
  {
    var s := Pending(cr) + chunk;
    if cr {
      assert s[1..] == chunk && EndsCr(s) == EndsCr(chunk);
      if EndsCr(s) {
        var t := s[..|s| - 1];
        if |chunk| > 1 {
          assert t[1..] == chunk[..|chunk| - 1];
        } else {
          assert t == "\r" && chunk[..0] == "" && t[1..] == "";
        }
      }
    } else {
      assert s == chunk;
    }
  }

  /** Chunked stripping: the output so far and one more nonempty chunk. */
  lemma StripChunk(a: string, chunk: string)
    requires chunk != ""
    ensures StripOpen(a + chunk) == StripOpen(a) + Converted(EndsCr(a), chunk)
    ensures EndsCr(a + chunk) == EndsCr(chunk)
  {
    PendingStrip(EndsCr(a), chunk);
    var p := Pending(EndsCr(a));
    if EndsCr(chunk) {
      var b := chunk[..|chunk| - 1];
      assert (a + chunk)[..|a + chunk| - 1] == a + b;
      assert (p + chunk)[..|p + chunk| - 1] == p + b;
      StripCut(a, b);
    } else {
      StripCut(a, chunk);
    }
  }

  /** The end of the stream decides the last CR: it stays. */
  lemma StripFlush(a: string)
    ensures Strip(a) == StripOpen(a) + Pending(EndsCr(a))
  {
    StripCut(a, "");
    assert a + "" == a && Pending(EndsCr(a)) + "" == Pending(EndsCr(a));
    assert "\r"[1..] == "";
  }

  function LastCr(prev: bool, s: string): bool {
    if s == "" then prev else EndsCr(s)
  }

  lemma ExpandUnfold(prev: bool, s: string)
    requires s != ""
    ensures Expand(prev, s) == (if s[0] == '\n' && !prev then "\r\n" else [s[0]]) + Expand(s[0] == '\r', s[1..])
  {
  }

  lemma {:induction false} ExpandChunk(prev: bool, a: string, b: string)
    ensures Expand(prev, a + b) == Expand(prev, a) + Expand(LastCr(prev, a), b)
    decreases |a|
  {
    hide Expand;
    if a == "" {
      assert a + b == b;
      ExpandEnd(prev);
      assert "" + Expand(prev, b) == Expand(prev, b);
    } else {
      assert (a + b)[1..] == a[1..] + b && (a + b)[0] == a[0];
      ExpandUnfold(prev, a);
      ExpandUnfold(prev, a + b);
      ExpandChunk(a[0] == '\r', a[1..], b);
      assert LastCr(a[0] == '\r', a[1..]) == LastCr(prev, a);
    }
  }

  /** Sending what has been sent changes nothing. */
  lemma {:induction false} ExpandIdempotent(prev: bool, s: string)
    ensures Expand(prev, Expand(prev, s)) == Expand(prev, s)
    decreases |s|
  {
    if s != "" {
      var rest := Expand(s[0] == '\r', s[1..]);
      if s[0] == '\n' && !prev {
        ExpandIdempotent(false, s[1..]);
        var t := "\r\n" + Expand(false, s[1..]);
        assert t[0] == '\r' && t[1..] == "\n" + Expand(false, s[1..]);
        assert t[1..][1..] == Expand(false, s[1..]);
      } else {
        ExpandIdempotent(s[0] == '\r', s[1..]);
        assert ([s[0]] + rest)[1..] == rest;
      }
    }
  }

  /** Receiving what was sent gives what receiving the original would. */
  lemma {:induction false} StripExpand(prev: bool, s: string)
    ensures Strip(Pending(prev) + Expand(prev, s)) == Strip(Pending(prev) + s)
    decreases |s|
  {
    hide Strip;
    if s != "" {
      var c, rest := s[0], s[1..];
      var t := Expand(c == '\r', rest);
      StripExpand(c == '\r', rest);
      assert s == [c] + rest;
      StripFirst(prev, c, rest);
      if c == '\n' && !prev {
        assert "\r\n" + t == ['\r'] + (['\n'] + t);
        StripFirst(false, '\r', ['\n'] + t);
        StripFirst(true, '\n', t);
      } else {
        StripFirst(prev, c, t);
      }
    }
  }

  /** One character after a possible CR. */
  lemma StripFirst(prev: bool, c: char, rest: string)
    ensures Strip(Pending(prev) + ([c] + rest))
         == (if prev && c != '\n' then "\r" else "") + (if c == '\r' then "" else [c]) + Strip(Pending(c == '\r') + rest)
  {
    var s := [c] + rest;
    assert s[1..] == rest;
    if prev {
      assert ("\r" + s)[1..] == s;
    } else {
      assert "" + s == s;
    }
    if c == '\r' {
      assert "\r" + rest == s;
    } else {
      assert "" + rest == rest;
    }
  }

  lemma {:induction false} StripShorter(s: string)
    ensures |Strip(s)| <= |s|
    ensures Strip(s) == s <==> NoCrLf(s)
  {
    if s != "" {
      StripShorter(s[1..]);
      if s[0] == '\r' && |s| > 1 && s[1] == '\n' {
      } else {
        assert s == [s[0]] + s[1..];
        assert NoCrLf(s) <==> NoCrLf(s[1..]) by {
          if NoCrLf(s[1..]) {
            forall i | 0 <= i < |s| - 1 ensures !(s[i] == '\r' && s[i + 1] == '\n') {
              if i > 0 { assert s[1..][i - 1] == s[i] && s[1..][i] == s[i + 1]; }
            }
          }
          if NoCrLf(s) {
            forall i | 0 <= i < |s[1..]| - 1 ensures !(s[1..][i] == '\r' && s[1..][i + 1] == '\n') {
              assert s[1..][i] == s[i + 1] && s[1..][i + 1] == s[i + 2];
            }
          }
        }
      }
    }
  }

  /** Send then receive restores a file exactly when it holds no CR LF pair. */
  lemma SendThenReceive(s: string)
    ensures Strip(Expand(false, s)) == Strip(s)
    ensures Strip(Expand(false, s)) == s <==> NoCrLf(s)
  {
    StripExpand(false, s);
    assert Pending(false) + Expand(false, s) == Expand(false, s) && Pending(false) + s == s;
    StripShorter(s);
  }

  /** The conversion of an upload, read from its end: a pair becomes an LF, and any other character stays. */
  lemma StripLast(a: string, c: char)
    ensures Strip("") == "" && Strip(a + "\r\n") == Strip(a) + "\n"
    ensures !(c == '\n' && a != "" && a[|a| - 1] == '\r') ==> Strip(a + [c]) == Strip(a) + [c]
  {
    hide Strip, StripOpen;
    StripPieces(c);
    StripPair(a);
    if c != '\n' || !EndsCr(a) { StripOther(a, c); }
  }

  lemma StripPair(a: string)
    ensures Strip(a + "\r\n") == Strip(a) + "\n"
  {
    hide Strip, StripOpen;
    StripPieces('\n');
    StripFlush(a);
    StripCut(a, "\r\n");
    var open := StripOpen(a);
    if EndsCr(a) {
      assert (open + "\r") + "\n" == open + "\r\n";
      assert "\r" + "\r\n" == ['\r'] + "\r\n";
    } else {
      assert open + "" == open && "" + "\r\n" == "\r\n";
    }
  }

  lemma StripOther(a: string, c: char)
    requires c != '\n' || !EndsCr(a)
    ensures Strip(a + [c]) == Strip(a) + [c]
  {
    hide Strip, StripOpen;
    StripPieces(c);
    StripFlush(a);
    StripCut(a, [c]);
    var open := StripOpen(a);
    if EndsCr(a) {
      assert (open + "\r") + [c] == open + (['\r'] + [c]);
      assert "\r" + [c] == ['\r'] + [c];
    } else {
      assert open + "" == open && "" + [c] == [c];
    }
  }

  lemma StripPieces(c: char)
    ensures Strip("") == "" && Strip("\r\n") == "\n" && Strip(['\r'] + "\r\n") == "\r\n" && Strip([c]) == [c]
    ensures c != '\n' ==> Strip(['\r'] + [c]) == ['\r'] + [c]
  {
    StripUnfold(c, "");
    StripUnfold('\n', "");
    StripUnfold('\r', "\n");
    StripUnfold('\r', "\r\n");
    StripUnfold('\r', [c]);
    assert [c] + "" == [c] && ['\n'] + "" == "\n" && ['\r'] + "\n" == "\r\n";
  }

  /** The conversion of a download, read from its end: an LF gets a CR if none stands before it in the file. */
  lemma ExpandLast(prev: bool, a: string, c: char)
    ensures Expand(prev, "") == ""
    ensures Expand(prev, a + [c])
         == Expand(prev, a)
            + if c == '\n' && !(if a == "" then prev else a[|a| - 1] == '\r') then "\r\n" else [c]
  {
    hide Expand;
    ExpandEnd(prev);
    ExpandChunk(prev, a, [c]);
    ExpandOne(LastCr(prev, a), c);
  }

  predicate CrBefore(prev: bool, s: string, i: nat)
    requires i <= |s|
  {
    if i == 0 then prev else s[i - 1] == '\r'
  }

  /** No LF without a CR before it. */
  predicate NoBareLf(prev: bool, s: string) {
    forall i :: 0 <= i < |s| && s[i] == '\n' ==> CrBefore(prev, s, i)
  }

  /** What is sent has no bare LF, and only what has none is sent as it is. */
  lemma {:induction false} ExpandBare(prev: bool, s: string)
    ensures NoBareLf(prev, Expand(prev, s)) && (Expand(prev, s) == s <==> NoBareLf(prev, s))
    ensures |Expand(prev, s)| >= |s|
    decreases |s|
  {
    if s != "" {
      var c, rest := s[0], s[1..];
      assert s == [c] + rest;
      ExpandBare(c == '\r', rest);
      var t := Expand(c == '\r', rest);
      BareStep(prev, c, rest);
      BareStep(prev, c, t);
      if c == '\n' && !prev {
        BareStep(false, '\n', t);
        BareStep(true, '\n', t);
        BareStep(prev, '\r', ['\n'] + t);
        assert "\r\n" + t == ['\r'] + (['\n'] + t);
        assert |Expand(prev, s)| > |s|;
      }
    }
  }

  lemma BareStep(prev: bool, c: char, rest: string)
    ensures NoBareLf(prev, [c] + rest) <==> (c == '\n' ==> prev) && NoBareLf(c == '\r', rest)
  {
    var s := [c] + rest;
    assert s[0] == c && CrBefore(prev, s, 0) == prev;
    forall k | 0 <= k < |rest|
      ensures s[k + 1] == rest[k] && CrBefore(prev, s, k + 1) == CrBefore(c == '\r', rest, k)
    {
      assert s[k] == if k == 0 then c else rest[k - 1];
    }
    if (c == '\n' ==> prev) && NoBareLf(c == '\r', rest) {
      forall i | 0 <= i < |s| && s[i] == '\n'
        ensures CrBefore(prev, s, i)
      {
        if i > 0 { assert s[(i - 1) + 1] == rest[i - 1]; }
      }
    }
  }

  // ------------------------------------------------------------- one chunk

  /** What the in-place loop has written after `i` characters, each CR judged by the character behind it. */
  function Emitted(c: string, i: nat): string
    requires i <= |c|
  {
    StripOpen(c[..i]) + (if EndsCr(c[..i]) && i < |c| && c[i] != '\n' then "\r" else "")
  }

  predicate KeptAt(c: string, i: nat)
    requires i < |c|
  {
    c[i] != '\r' || (i + 1 < |c| && c[i + 1] != '\n')
  }

  lemma EmitStep(c: string, i: nat)
    requires i < |c|
    ensures Emitted(c, i + 1) == Emitted(c, i) + (if KeptAt(c, i) then [c[i]] else "")
  {
    hide Strip;
    var a := c[..i];
    assert c[..i + 1] == a + [c[i]];
    StripChunk(a, [c[i]]);
    StripOne(c[i]);
  }

  lemma StripOne(ch: char)
    ensures StripOpen([ch]) == if ch == '\r' then "" else [ch]
  {
    assert [ch][..0] == "" && [ch][1..] == "";
    assert Strip("") == "" && [ch] + "" == [ch];
  }

  lemma EmitEnds(c: string)
    ensures Emitted(c, 0) == "" && Emitted(c, |c|) == StripOpen(c)
  {
    assert c[..0] == "" && c[..|c|] == c;
  }

  /** vsf_ascii_ascii_to_bin: conversion in place, one slot kept free in front for a CR left over from the last chunk.
      The bytes at `start` are the conversion of the chunk, and no byte is overwritten before it is read. */
  method AsciiToBin(buf: array<char>, inLen: nat, prevCr: bool) returns (start: nat, stored: nat, lastWasCr: bool)
    requires inLen + 1 <= buf.Length
    modifies buf
    ensures start + stored <= inLen + 1
    ensures buf[start..start + stored] == Converted(prevCr, old(buf[1..inLen + 1]))
    ensures lastWasCr == EndsCr(old(buf[1..inLen + 1]))
  {
    hide StripOpen, Emitted;
    ghost var chunk := buf[1..inLen + 1];
    lastWasCr := false;
    var lead := prevCr && (inLen == 0 || buf[1] != '\n');
    if lead {
      buf[0] := '\r';
      start := 0;
    } else {
      start := 1;
    }
    var out := 1;
    var i := 0;
    EmitEnds(chunk);
    while i < inLen
      invariant 0 <= i <= inLen && 1 <= out <= i + 1
      invariant forall k :: i + 1 <= k <= inLen ==> buf[k] == chunk[k - 1]
      invariant lead ==> buf[0] == '\r'
      invariant buf[1..out] == Emitted(chunk, i)
      invariant lastWasCr == (i == inLen && EndsCr(chunk))
    {
      EmitStep(chunk, i);
      ghost var done := buf[1..out];
      var c := buf[i + 1];
      if c != '\r' {
        buf[out] := c;
        out := out + 1;
        assert buf[1..out] == done + [c];
      } else if i == inLen - 1 {
        lastWasCr := true;
      } else if buf[i + 2] != '\n' {
        buf[out] := c;
        out := out + 1;
        assert buf[1..out] == done + [c];
      }
      i := i + 1;
    }
    stored := out - start;
    if lead {
      assert buf[0..out] == "\r" + buf[1..out];
    }
  }

  /** vsf_ascii_bin_to_ascii: the output is the expansion of the chunk and fits a buffer of twice its size. */
  method BinToAscii(input: string, out: array<char>, prevCr: bool) returns (stored: nat, lastWasCr: bool)
    requires out.Length >= 2 * |input|
    modifies out
    ensures stored <= 2 * |input| && out[..stored] == Expand(prevCr, input)
    ensures lastWasCr == LastCr(prevCr, input)
  {
    hide Expand;
    stored, lastWasCr := 0, prevCr;
    var i := 0;
    var last := if prevCr then '\r' else '\0';
    assert input[..0] == "";
    ExpandEnd(prevCr);
    while i < |input|
      invariant 0 <= i <= |input| && stored <= 2 * i
      invariant lastWasCr == LastCr(prevCr, input[..i]) == (last == '\r')
      invariant out[..stored] == Expand(prevCr, input[..i])
    {
      var c := input[i];
      assert input[..i + 1] == input[..i] + [c];
      ExpandChunk(prevCr, input[..i], [c]);
      ExpandOne(lastWasCr, c);
      ghost var done := out[..stored];
      if c == '\n' && last != '\r' {
        out[stored] := '\r';
        stored := stored + 1;
      }
      out[stored] := c;
      stored := stored + 1;
      assert out[..stored] == done + (if c == '\n' && last != '\r' then "\r\n" else [c]);
      i := i + 1;
      last := c;
      lastWasCr := c == '\r';
    }
    assert input[..i] == input;
  }

  lemma ExpandEnd(prev: bool)
    ensures Expand(prev, "") == ""
  {}

  lemma ExpandOne(prev: bool, c: char)
    ensures Expand(prev, [c]) == if c == '\n' && !prev then "\r\n" else [c]
  {
    assert [c][1..] == "";
    assert "\r\n" + "" == "\r\n";
  }

  // -------------------------------------------------------------- transfers

  function Concat(chunks: seq<string>): string {
    if chunks == [] then "" else Concat(chunks[..|chunks| - 1]) + chunks[|chunks| - 1]
  }

  lemma ConcatStep(chunks: seq<string>, i: nat)
    requires i < |chunks|
    ensures Concat(chunks[..i + 1]) == Concat(chunks[..i]) + chunks[i]
  {
    assert chunks[..i + 1][..i] == chunks[..i];
  }

  /** How the stream was cut: no empty read before the end, and none larger than the buffer. */
  predicate Cut(chunks: seq<string>) {
    forall c :: c in chunks ==> 0 < |c| <= DATA_BUFSIZE
  }

  // ------------------------------------------------------------------ writes

  /** What the calls of write(2) that one write loop makes answer: a count, zero or an error. */
  type Kernel = nat -> int

  /** How many bytes got out, and whether the loop ended in an error. */
  datatype Written = Written(stored: nat, error: bool)

  /** What a write loop over `size` bytes comes to, from its call number `j` on. */
  function WriteResult(size: nat, kernel: Kernel, j: nat): (w: Written)
    ensures w.stored <= size
    decreases size
  {
    var a := kernel(j);
    if a < 0 then Written(0, true)
    else if a == 0 then Written(0, false)
    else if a >= size then Written(size, false)
    else
      var w := WriteResult(size - a, kernel, j + 1);
      Written(a + w.stored, w.error)
  }

  function Sum(kernel: Kernel, n: nat): int {
    if n == 0 then 0 else Sum(kernel, n - 1) + kernel(n - 1)
  }

  /** As long as the calls answer with less than there is left, their answers add up. The first call that does not settle
      the matter: it fails, stores nothing, or takes all the rest. */
  lemma {:induction false} WriteMeans(size: nat, kernel: Kernel, n: nat)
    requires forall j :: 0 <= j < n ==> kernel(j) > 0
    requires n > 0 ==> Sum(kernel, n) < size
    ensures var sum := Sum(kernel, n);
      && 0 <= sum <= size
      && (kernel(n) < 0 ==> WriteResult(size, kernel, 0) == Written(sum, true))
      && (kernel(n) == 0 ==> WriteResult(size, kernel, 0) == Written(sum, false))
      && (kernel(n) > 0 && kernel(n) >= size - sum ==> WriteResult(size, kernel, 0) == Written(size, false))
  {
    WriteFrom(size, kernel, n);
  }

  /** After `n` such calls the loop goes on with the rest. */
  lemma {:induction false} WriteFrom(size: nat, kernel: Kernel, n: nat)
    requires forall j :: 0 <= j < n ==> kernel(j) > 0
    requires n > 0 ==> Sum(kernel, n) < size
    ensures 0 <= Sum(kernel, n) <= size
    ensures var rest := WriteResult(size - Sum(kernel, n), kernel, n);
      WriteResult(size, kernel, 0) == Written(Sum(kernel, n) + rest.stored, rest.error)
  {
    if n > 0 {
      WriteFrom(size, kernel, n - 1);
    }
  }

  /** vsf_sysutil_write_loop: all the bytes, or those before a call that stored nothing or failed. The kernel stores no
      more than it is asked to; an error hides how much got out before it. */
  method WriteLoop(data: string, kernel: Kernel) returns (retval: int, out: string)
    ensures var w := WriteResult(|data|, kernel, 0);
      && out == data[..w.stored]
      && (retval < 0 <==> w.error)
      && (!w.error ==> retval == w.stored)
  {
    var written, size, j := 0, |data|, 0;
    while true
      invariant written + size == |data|
      invariant size > 0 || written == 0
      invariant var w, rest := WriteResult(|data|, kernel, 0), WriteResult(size, kernel, j);
        w.stored == written + rest.stored && w.error == rest.error
      decreases size
    {
      var answer := kernel(j);
      if answer < 0 {
        return answer, data[..written];
      }
      if answer == 0 {
        return written, data[..written];
      }
      var count := if answer > size then size else answer;
      written := written + count;
      size := size - count;
      if size == 0 {
        return written, data[..written];
      }
      j := j + 1;
    }
  }

  predicate Fails(size: nat, w: Written) { w.error || w.stored != size }

  /** The number of the first write that fails, or `n` if none of the first `n` does. */
  function FirstFailure(fails: nat -> bool, n: nat, i: nat): (k: nat)
    requires i <= n
    ensures i <= k <= n && (forall j :: i <= j < k ==> !fails(j)) && (k < n ==> fails(k))
    decreases n - i
  {
    if i == n || fails(i) then i else FirstFailure(fails, n, i + 1)
  }

  lemma FirstFailureIs(fails: nat -> bool, n: nat, k: nat)
    requires k <= n && (forall j :: 0 <= j < k ==> !fails(j)) && (k < n ==> fails(k))
    ensures FirstFailure(fails, n, 0) == k
  {
    var found := FirstFailure(fails, n, 0);
  }

  /** How much a write has to add. */
  function Added(before: string, after: string): nat {
    if |before| <= |after| then |after| - |before| else 0
  }

  /** What is there after a write that stored only some of it. */
  function Partly(before: string, after: string, w: Written): string {
    if |before| + w.stored <= |after| then after[..|before| + w.stored] else after
  }

  // --------------------------------------------------------------- receiving

  /** The file after a whole upload, and after a part of one. */
  function Received(isAscii: bool, s: string): string { if isAscii then Strip(s) else s }

  function SoFar(isAscii: bool, s: string): string { if isAscii then StripOpen(s) else s }

  /** One write per chunk, and one more for a CR at the very end. */
  function Writes(chunks: seq<string>, broken: bool, isAscii: bool): nat {
    |chunks| + (if isAscii && !broken && EndsCr(Concat(chunks)) then 1 else 0)
  }

  /** The file after `i` whole writes. */
  function FileAfter(isAscii: bool, chunks: seq<string>, i: nat): string {
    if i <= |chunks| then SoFar(isAscii, Concat(chunks[..i])) else Received(isAscii, Concat(chunks))
  }

  /** A write adds to the file; together the writes make the conversion of the whole. */
  lemma FileGrows(isAscii: bool, chunks: seq<string>, i: nat)
    requires Cut(chunks) && i <= |chunks|
    ensures FileAfter(isAscii, chunks, i) <= FileAfter(isAscii, chunks, i + 1)
  {
    hide StripOpen, Strip, Converted, Concat;
    if i < |chunks| {
      ConcatStep(chunks, i);
      assert chunks[i] in chunks;
      StripChunk(Concat(chunks[..i]), chunks[i]);
    } else {
      assert chunks[..i] == chunks;
      StripFlush(Concat(chunks));
    }
  }

  lemma {:induction false} FileIsPrefix(isAscii: bool, chunks: seq<string>, i: nat)
    requires Cut(chunks) && i <= |chunks| + 1
    ensures FileAfter(isAscii, chunks, i) <= Received(isAscii, Concat(chunks))
    decreases |chunks| + 1 - i
  {
    hide Received, SoFar;
    if i <= |chunks| {
      FileGrows(isAscii, chunks, i);
      FileIsPrefix(isAscii, chunks, i + 1);
    }
  }

  /** After `i` whole writes the file is the conversion of what was read, but for a CR held back, or in binary mode just
      what was read. */
  lemma FileAfterMeans(isAscii: bool, chunks: seq<string>, i: nat)
    requires i <= |chunks|
    ensures var read := Concat(chunks[..i]);
      FileAfter(isAscii, chunks, i) + (if isAscii && read != "" && read[|read| - 1] == '\r' then "\r" else "")
      == if isAscii then Strip(read) else read
  {
    hide Strip, StripOpen, Concat;
    StripFlush(Concat(chunks[..i]));
  }

  /** How write number `i` of an upload comes out. */
  function RecvWrite(isAscii: bool, chunks: seq<string>, disk: nat -> Kernel, i: nat): Written {
    WriteResult(Added(FileAfter(isAscii, chunks, i), FileAfter(isAscii, chunks, i + 1)), disk(i), 0)
  }

  predicate RecvFails(isAscii: bool, chunks: seq<string>, disk: nat -> Kernel, i: nat) {
    Fails(Added(FileAfter(isAscii, chunks, i), FileAfter(isAscii, chunks, i + 1)), RecvWrite(isAscii, chunks, disk, i))
  }

  /** Where an upload stops: at the first write that fails, if any. */
  function RecvStop(isAscii: bool, chunks: seq<string>, broken: bool, disk: nat -> Kernel): nat {
    FirstFailure((i: nat) => RecvFails(isAscii, chunks, disk, i), Writes(chunks, broken, isAscii), 0)
  }

  /** do_file_recv. The reads give `chunks` and then the end of the stream, again and again, or an error if `broken`; the
      calls of write(2) answer as `disk` says. However the upload is cut, the file ends up with the conversion of the
      whole; if a write fails, with that of the part before it and as much of the next as the failing write stored. */
  method FileRecv(chunks: seq<string>, broken: bool, disk: nat -> Kernel, isAscii: bool)
    returns (retval: int, transferred: nat, file: string)
    requires Cut(chunks)
    ensures var k := RecvStop(isAscii, chunks, broken, disk);
      if k == Writes(chunks, broken, isAscii) then
        && retval == (if broken then -2 else 0) && transferred == |Concat(chunks)|
        && file == if broken then SoFar(isAscii, Concat(chunks)) else Received(isAscii, Concat(chunks))
      else
        && retval == -1 && transferred == |Concat(chunks[..if k < |chunks| then k + 1 else |chunks|])|
        && file == Partly(FileAfter(isAscii, chunks, k), FileAfter(isAscii, chunks, k + 1), RecvWrite(isAscii, chunks, disk, k))
    ensures file <= if isAscii then Strip(Concat(chunks)) else Concat(chunks)
    ensures retval == 0 ==> !broken && file == if isAscii then Strip(Concat(chunks)) else Concat(chunks)
    ensures retval == -2 ==> broken && (isAscii || file == Concat(chunks))
    ensures retval == -2 && isAscii ==> file + (if EndsCr(Concat(chunks)) then "\r" else "") == Strip(Concat(chunks))
  {
    hide StripOpen, Strip, Converted, Concat, EndsCr, RecvFails, RecvWrite, Partly, FileAfter;
    var buf := new char[DATA_BUFSIZE + 1];
    var prevCr := false;
    var i := 0;
    retval, transferred, file := 0, 0, "";
    FileEnds(isAscii, chunks);
    StripFlush(Concat(chunks));
    ghost var fails := (k: nat) => RecvFails(isAscii, chunks, disk, k);
    ghost var writes := Writes(chunks, broken, isAscii);
    while i < |chunks|
      invariant 0 <= i <= |chunks| && retval == 0
      invariant transferred == |Concat(chunks[..i])|
      invariant file == FileAfter(isAscii, chunks, i)
      invariant prevCr == (isAscii && EndsCr(Concat(chunks[..i])))
      invariant forall k :: 0 <= k < i ==> !fails(k)
    {
      var towrite;
      towrite, prevCr := ReadChunk(buf, isAscii, chunks, i, prevCr);
      transferred := transferred + |chunks[i]|;
      var ok;
      ok, file := WriteOut(isAscii, chunks, disk, i, file, towrite);
      if !ok {
        FileIsPrefix(isAscii, chunks, i + 1);
        FirstFailureIs(fails, writes, i);
        return -1, transferred, file;
      }
      i := i + 1;
    }
    assert chunks[..i] == chunks;
    FileIsPrefix(isAscii, chunks, i);
    if broken {
      FirstFailureIs(fails, writes, i);
      return -2, transferred, file;
    }
    if prevCr {
      var towrite := ReadEnd(buf, chunks);
      var ok;
      ok, file := WriteOut(isAscii, chunks, disk, i, file, towrite);
      if !ok {
        FirstFailureIs(fails, writes, i);
        return -1, transferred, file;
      }
      FirstFailureIs(fails, writes, i + 1);
    } else {
      FirstFailureIs(fails, writes, i);
    }
  }

  /** The file at the start, when all chunks are in, and at the end of the stream. */
  lemma FileEnds(isAscii: bool, chunks: seq<string>)
    ensures chunks[..0] == [] && Concat([]) == "" && !EndsCr("") && FileAfter(isAscii, chunks, 0) == ""
    ensures FileAfter(isAscii, chunks, |chunks|) == SoFar(isAscii, Concat(chunks))
    ensures FileAfter(isAscii, chunks, |chunks| + 1) == Received(isAscii, Concat(chunks))
    ensures !(isAscii && EndsCr(Concat(chunks))) ==> SoFar(isAscii, Concat(chunks)) == Received(isAscii, Concat(chunks))
  {
    hide Strip;
    StartStream(chunks);
    assert chunks[..|chunks|] == chunks;
  }

  /** One read of an upload and its conversion in the buffer. */
  method ReadChunk(buf: array<char>, isAscii: bool, chunks: seq<string>, i: nat, prevCr: bool)
    returns (towrite: string, lastCr: bool)
    requires buf.Length == DATA_BUFSIZE + 1 && Cut(chunks) && i < |chunks|
    requires prevCr == (isAscii && EndsCr(Concat(chunks[..i])))
    modifies buf
    ensures FileAfter(isAscii, chunks, i + 1) == FileAfter(isAscii, chunks, i) + towrite
    ensures lastCr == (isAscii && EndsCr(Concat(chunks[..i + 1])))
    ensures |Concat(chunks[..i + 1])| == |Concat(chunks[..i])| + |chunks[i]|
  {
    hide StripOpen, Strip, Converted, Concat, EndsCr;
    var c := chunks[i];
    ConcatStep(chunks, i);
    assert c in chunks;
    ReadInto(buf, c);
    towrite, lastCr := c, false;
    if isAscii {
      StripChunk(Concat(chunks[..i]), c);
      var start, stored;
      start, stored, lastCr := AsciiToBin(buf, |c|, prevCr);
      towrite := buf[start..start + stored];
    }
  }

  /** The read that finds the end of the stream with a CR held back. */
  method ReadEnd(buf: array<char>, chunks: seq<string>) returns (towrite: string)
    requires buf.Length == DATA_BUFSIZE + 1 && EndsCr(Concat(chunks))
    modifies buf
    ensures FileAfter(true, chunks, |chunks| + 1) == FileAfter(true, chunks, |chunks|) + towrite
  {
    hide StripOpen, Strip, Converted, Concat, EndsCr;
    assert buf[1..1] == "" && chunks[..|chunks|] == chunks;
    var start, stored, more := AsciiToBin(buf, 0, true);
    FlushOnly(true);
    StripFlush(Concat(chunks));
    towrite := buf[start..start + stored];
  }

  /** One write of an upload. */
  method WriteOut(isAscii: bool, chunks: seq<string>, disk: nat -> Kernel, i: nat, file: string, towrite: string)
    returns (ok: bool, file': string)
    requires Cut(chunks) && i <= |chunks| && file == FileAfter(isAscii, chunks, i)
    requires FileAfter(isAscii, chunks, i + 1) == file + towrite
    ensures ok <==> !RecvFails(isAscii, chunks, disk, i)
    ensures file' == Partly(file, file + towrite, RecvWrite(isAscii, chunks, disk, i)) <= file + towrite
    ensures ok ==> file' == file + towrite
  {
    hide FileAfter;
    var retval, out := WriteLoop(towrite, disk(i));
    ok := retval >= 0 && retval == |towrite|;
    file' := file + out;
  }

  /** A read puts its bytes behind the spare first slot. */
  method ReadInto(buf: array<char>, c: string)
    requires |c| + 1 <= buf.Length
    modifies buf
    ensures buf[1..|c| + 1] == c
  {
    forall k | 0 <= k < |c| { buf[k + 1] := c[k]; }
  }

  lemma StartStream(chunks: seq<string>)
    ensures chunks[..0] == [] && Concat([]) == "" && StripOpen("") == "" && !EndsCr("")
  {}

  lemma FlushOnly(cr: bool)
    ensures Converted(cr, "") == Pending(cr)
  {}

  // ----------------------------------------------------------------- sending

  /** The data connection: plain, written by the write loop, or secured, where the SSL library, in this process or in the
      slave, reports one outcome for each write. */
  datatype Channel = Plain(kernel: nat -> Kernel) | Tls(library: nat -> Written)

  /** What write number `i` of `size` bytes comes to; the library sends no more than it is given. */
  function ChannelResult(size: nat, peer: Channel, i: nat): (w: Written)
    ensures w.stored <= size
  {
    match peer
    case Plain(kernel) => WriteResult(size, kernel(i), 0)
    case Tls(library) => if library(i).stored <= size then library(i) else Written(size, library(i).error)
  }

  /** ftp_write_data: the count, or an error, and what got out. */
  method WriteData(data: string, peer: Channel, i: nat) returns (retval: int, out: string)
    ensures var w := ChannelResult(|data|, peer, i);
      && out == data[..w.stored]
      && (retval < 0 <==> w.error)
      && (!w.error ==> retval == w.stored)
    ensures out <= data && (retval >= 0 ==> retval == |out|)
    ensures peer.Tls? && peer.library(i).stored <= |data| ==>
              |out| == peer.library(i).stored && (retval < 0 <==> peer.library(i).error)
  {
    match peer
    case Plain(kernel) => retval, out := WriteLoop(data, kernel(i));
    case Tls(library) =>
      var w := library(i);
      var sent := if w.stored <= |data| then w.stored else |data|;
      retval, out := if w.error then -1 else sent, data[..sent];
  }

  /** What the network gets for a file. */
  function Sent(isAscii: bool, s: string): string { if isAscii then Expand(false, s) else s }

  function NetAfter(isAscii: bool, chunks: seq<string>, i: nat): string {
    Sent(isAscii, Concat(chunks[..if i <= |chunks| then i else |chunks|]))
  }

  /** After `i` whole writes the network has the conversion of what was read, or in binary mode just what was read. */
  lemma NetAfterMeans(isAscii: bool, chunks: seq<string>, i: nat)
    requires i <= |chunks|
    ensures NetAfter(isAscii, chunks, i)
         == if isAscii then Expand(false, Concat(chunks[..i])) else Concat(chunks[..i])
  {
    hide Expand, Concat;
  }

  lemma NetGrows(isAscii: bool, chunks: seq<string>, i: nat)
    requires i < |chunks|
    ensures NetAfter(isAscii, chunks, i) <= NetAfter(isAscii, chunks, i + 1)
  {
    hide Expand, Concat;
    ConcatStep(chunks, i);
    ExpandChunk(false, Concat(chunks[..i]), chunks[i]);
  }

  lemma {:induction false} NetIsPrefix(isAscii: bool, chunks: seq<string>, i: nat)
    requires i <= |chunks|
    ensures NetAfter(isAscii, chunks, i) <= Sent(isAscii, Concat(chunks))
    decreases |chunks| - i
  {
    hide Sent, Concat;
    if i < |chunks| {
      NetGrows(isAscii, chunks, i);
      NetIsPrefix(isAscii, chunks, i + 1);
    } else {
      assert chunks[..i] == chunks;
    }
  }

  /** How write number `i` of a download comes out. */
  function SendWrite(isAscii: bool, chunks: seq<string>, peer: Channel, i: nat): Written {
    ChannelResult(Added(NetAfter(isAscii, chunks, i), NetAfter(isAscii, chunks, i + 1)), peer, i)
  }

  predicate SendFails(isAscii: bool, chunks: seq<string>, peer: Channel, i: nat) {
    Fails(Added(NetAfter(isAscii, chunks, i), NetAfter(isAscii, chunks, i + 1)), SendWrite(isAscii, chunks, peer, i))
  }

  /** Where a download stops: at the first write that fails, if any. */
  function SendStop(isAscii: bool, chunks: seq<string>, peer: Channel): nat {
    FirstFailure((i: nat) => SendFails(isAscii, chunks, peer, i), |chunks|, 0)
  }

  /** do_file_send_rwloop: however the file is cut, the network gets the expansion of the whole; if a write fails, that of
      the part before it and as much of the next as got out. The count that is reported leaves those last bytes out
      exactly if the write ended in an error. */
  method FileSend(chunks: seq<string>, broken: bool, peer: Channel, isAscii: bool)
    returns (retval: int, transferred: nat, net: string)
    requires Cut(chunks)
    ensures var k := SendStop(isAscii, chunks, peer);
      if k == |chunks| then
        retval == (if broken then -1 else 0) && net == Sent(isAscii, Concat(chunks)) && transferred == |net|
      else
        var w := SendWrite(isAscii, chunks, peer, k);
        && retval == -2 && net == Partly(NetAfter(isAscii, chunks, k), NetAfter(isAscii, chunks, k + 1), w)
        && transferred == |net| - if w.error then w.stored else 0
    ensures net <= (if isAscii then Expand(false, Concat(chunks)) else Concat(chunks)) && transferred <= |net|
    ensures retval == -2 || net == if isAscii then Expand(false, Concat(chunks)) else Concat(chunks)
  {
    hide Expand, Concat, Strip, StripOpen, SendFails, SendWrite, Partly;
    var asciiBuf := new char[2 * DATA_BUFSIZE];
    var prevCr := false;
    var i := 0;
    retval, transferred, net := 0, 0, "";
    StartStream(chunks);
    ExpandEnd(false);
    ghost var fails := (k: nat) => SendFails(isAscii, chunks, peer, k);
    while i < |chunks|
      invariant 0 <= i <= |chunks| && retval == 0
      invariant net == NetAfter(isAscii, chunks, i)
      invariant isAscii ==> prevCr == LastCr(false, Concat(chunks[..i]))
      invariant transferred == |net|
      invariant forall k :: 0 <= k < i ==> !fails(k)
    {
      var c := chunks[i];
      ConcatStep(chunks, i);
      assert c in chunks;
      var towrite := c;
      if isAscii {
        ExpandChunk(false, Concat(chunks[..i]), c);
        var stored;
        stored, prevCr := BinToAscii(c, asciiBuf, prevCr);
        towrite := asciiBuf[..stored];
      }
      var ok, count;
      ok, count, net := SendOut(isAscii, chunks, peer, i, net, towrite);
      transferred := transferred + count;
      if !ok {
        NetIsPrefix(isAscii, chunks, i + 1);
        FirstFailureIs(fails, |chunks|, i);
        return -2, transferred, net;
      }
      i := i + 1;
    }
    assert chunks[..i] == chunks;
    FirstFailureIs(fails, |chunks|, i);
    if broken {
      return -1, transferred, net;
    }
  }

  /** One write of a download. */
  method SendOut(isAscii: bool, chunks: seq<string>, peer: Channel, i: nat, net: string, towrite: string)
    returns (ok: bool, count: nat, net': string)
    requires i < |chunks| && net == NetAfter(isAscii, chunks, i) && NetAfter(isAscii, chunks, i + 1) == net + towrite
    ensures ok <==> !SendFails(isAscii, chunks, peer, i)
    ensures var w := SendWrite(isAscii, chunks, peer, i);
      && net' == Partly(net, net + towrite, w) <= net + towrite
      && |net'| == |net| + w.stored && count == if w.error then 0 else w.stored
    ensures ok ==> net' == net + towrite && count == |towrite|
  {
    hide NetAfter;
    var retval, out := WriteData(towrite, peer, i);
    count := if retval < 0 then 0 else retval;
    ok := retval >= 0 && retval == |towrite|;
    net' := net + out;
  }
}
